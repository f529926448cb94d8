/** The per-field error map a form keeps: a list of reported problems is recorded one after
    the other, and a later problem for a field overwrites the earlier one. */
module FormErrors {

  /** One reported problem: the field it is attached to and its message. */
  datatype Issue<F> = Issue(field: F, message: string)

  /** The error map after recording `issues` in order into an empty map. */
  function Recorded<F(==)>(issues: seq<Issue<F>>): map<F, string>
  {
    if issues == [] then map[]
    else Recorded(issues[..|issues| - 1])[issues[|issues| - 1].field := issues[|issues| - 1].message]
  }

  /** The loop of a `forEach` over the issues: `errors[issue.field] = issue.message`. */
  method Collect<F(==)>(issues: seq<Issue<F>>) returns (errors: map<F, string>)
    ensures errors == Recorded(issues)
  {
    errors := map[];
    var i := 0;
    while i < |issues|
      invariant 0 <= i <= |issues|
      invariant errors == Recorded(issues[..i])
    {
      assert issues[..i + 1][..i] == issues[..i];
      errors := errors[issues[i].field := issues[i].message];
      i := i + 1;
    }
    assert issues[..|issues|] == issues;
  }

  /** Exactly the fields some issue names get a message. */
  lemma {:induction false} RecordedDomain<F>(issues: seq<Issue<F>>, f: F)
    ensures f in Recorded(issues) <==> exists k :: 0 <= k < |issues| && issues[k].field == f
  {
    if issues != [] {
      var n := |issues| - 1;
      var front := issues[..n];
      RecordedDomain(front, f);
      if issues[n].field != f {
        if f in Recorded(issues) {
          var k :| 0 <= k < n && front[k].field == f;
          assert issues[k] == front[k];
        }
        if exists k :: 0 <= k < |issues| && issues[k].field == f {
          var k :| 0 <= k < |issues| && issues[k].field == f;
          assert front[k] == issues[k];
        }
      }
    }
  }

  /** The message a field gets is that of the last issue naming it. */
  lemma {:induction false} RecordedLast<F>(issues: seq<Issue<F>>, f: F)
    requires f in Recorded(issues)
    ensures exists k :: 0 <= k < |issues| && issues[k].field == f && Recorded(issues)[f] == issues[k].message
                        && forall j :: k < j < |issues| ==> issues[j].field != f
  {
    var n := |issues| - 1;
    if issues[n].field == f {
      assert Recorded(issues)[f] == issues[n].message;
    } else {
      var front := issues[..n];
      assert f in Recorded(front);
      RecordedLast(front, f);
      var k :| 0 <= k < n && front[k].field == f && Recorded(front)[f] == front[k].message
               && forall j :: k < j < n ==> front[j].field != f;
      assert issues[k] == front[k];
      forall j | k < j < |issues| ensures issues[j].field != f {
        if j < n { assert issues[j] == front[j]; }
      }
    }
  }
}
