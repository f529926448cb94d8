/** The profile page: the avatar initials, the title-cased name, the role badge and the
    page's own logout sequence. */
module Profile {
  import opened Types
  import opened Text
  import opened Lists
  import Session

  /** A word with a first character. */
  predicate NonEmpty(w: string) { w != [] }

  /** `n[0]` of every word, joined: an empty word (two spaces in a row, or a leading or trailing
      space) has no first character, and `join` turns the `undefined` into nothing. */
  function FirstChars(ws: seq<string>): (cs: string)
    // one character for each non-empty word
    ensures |cs| == |Filter(ws, NonEmpty)|
  {
    if ws == [] then [] else (if ws[0] == [] then [] else [ws[0][0]]) + FirstChars(ws[1..])
  }

  /** The characters are the first characters of the non-empty words, in the words' order, and
      there is one per word exactly when no word is empty. */
  lemma {:induction false} FirstCharsSpec(ws: seq<string>)
    ensures |FirstChars(ws)| == |Filter(ws, NonEmpty)|
    ensures forall k :: 0 <= k < |FirstChars(ws)| ==>
              Filter(ws, NonEmpty)[k] != [] && FirstChars(ws)[k] == Filter(ws, NonEmpty)[k][0]
    ensures |FirstChars(ws)| == |ws| <==> forall j :: 0 <= j < |ws| ==> ws[j] != []
  {
    if ws != [] {
      FirstCharsSpec(ws[1..]);
      var cs, rest := FirstChars(ws), FirstChars(ws[1..]);
      var ne, ne' := Filter(ws, NonEmpty), Filter(ws[1..], NonEmpty);
      assert cs == (if ws[0] == [] then [] else [ws[0][0]]) + rest;
      assert ne == (if NonEmpty(ws[0]) then [ws[0]] else []) + ne';
      forall k | 0 <= k < |cs| ensures ne[k] != [] && cs[k] == ne[k][0] {
        if ws[0] != [] && k == 0 {
        } else {
          var k' := if ws[0] != [] then k - 1 else k;
          assert cs[k] == rest[k'] && ne[k] == ne'[k'];
        }
      }
      if forall j :: 0 <= j < |ws| ==> ws[j] != [] {
        assert forall j :: 0 <= j < |ws[1..]| ==> ws[1..][j] != [] by {
          forall j | 0 <= j < |ws[1..]| ensures ws[1..][j] != [] {
            assert ws[1..][j] == ws[j + 1];
          }
        }
      }
    } else {
      assert FirstChars(ws) == [];
    }
  }

  /** `initials`: the upper-cased first characters of the space-separated words of the name;
      "U" for an absent or empty name. */
  function Initials(name: Option<string>): (initials: string)
    ensures name.None? || name.value == "" ==> initials == "U"
    // one initial per non-empty word, in the words' order
    ensures name.Some? && name.value != "" ==>
              var ne := Filter(Split(name.value, ' '), NonEmpty);
              |initials| == |ne|
              && forall k :: 0 <= k < |initials| ==> ne[k] != [] && initials[k] == UpperChar(ne[k][0])
  {
    if name.None? || name.value == "" then "U"
    else
      FirstCharsSpec(Split(name.value, ' '));
      Upper(FirstChars(Split(name.value, ' ')))
  }

  /** A name whose words are separated by single spaces has one initial per word: the k-th
      initial is the upper-cased first character of the k-th word. */
  lemma InitialsSpec(name: string)
    requires name != ""
    ensures var ws := Split(name, ' ');
            (forall j :: 0 <= j < |ws| ==> ws[j] != []) ==>
              |Initials(Some(name))| == |ws|
              && forall k :: 0 <= k < |ws| ==> Initials(Some(name))[k] == UpperChar(ws[k][0])
  {
    var ws := Split(name, ' ');
    if forall j :: 0 <= j < |ws| ==> ws[j] != [] {
      FilterAll(ws, NonEmpty);
    }
  }

  lemma JohnDoeWords()
    ensures Split("John Doe", ' ') == ["John", "Doe"]
  {
    assert "John Doe" == "John" + ([' '] + "Doe");
    assert ' ' !in "John" && ' ' !in "Doe";
    SplitAfter("John", ' ', "Doe");
    SplitFirst("Doe", ' ');
  }

  /** The initials keep the order of the words. */
  lemma JohnDoeInitials()
    ensures Initials(Some("John Doe")) == "JD"
  {
    JohnDoeWords();
    InitialsSpec("John Doe");
    var initials := Initials(Some("John Doe"));
    assert |initials| == 2;
    assert initials[0] == UpperChar('J') == 'J';
    assert initials[1] == UpperChar('D') == 'D';
  }

  /** A one-word name has its capitalised first letter as its initial. */
  lemma OneWordInitial(name: string)
    requires name != "" && ' ' !in name
    ensures Initials(Some(name)) == [UpperChar(name[0])]
  {
    SplitFirst(name, ' ');
    assert Split(name, ' ') == [name];
    assert [name][1..] == [];
  }

  function CapitalizeAll(ws: seq<string>): (cs: seq<string>)
    ensures |cs| == |ws|
    ensures forall k :: 0 <= k < |ws| ==> cs[k] == Capitalize(ws[k])
  {
    if ws == [] then [] else [Capitalize(ws[0])] + CapitalizeAll(ws[1..])
  }

  /** The title: every space-separated word capitalised, joined by single spaces;
      "Unknown User" for an absent or empty name. */
  function TitleCasedName(name: Option<string>): string
  {
    if name.None? || name.value == "" then "Unknown User"
    else Join(CapitalizeAll(Split(name.value, ' ')), " ")
  }

  /** Capitalising the words of a list and joining them changes only the case of letters. */
  lemma {:induction false} LowerJoinCapitalized(ws: seq<string>)
    ensures Lower(Join(CapitalizeAll(ws), " ")) == Lower(Join(ws, " "))
  {
    if |ws| == 1 {
      LowerCapitalize(ws[0]);
    } else if |ws| > 1 {
      LowerJoinCapitalized(ws[1..]);
      var cs := CapitalizeAll(ws);
      assert cs[1..] == CapitalizeAll(ws[1..]);
      assert Join(cs, " ") == cs[0] + " " + Join(cs[1..], " ");
      LowerConcat(cs[0] + " ", Join(cs[1..], " "));
      LowerConcat(cs[0], " ");
      LowerConcat(ws[0] + " ", Join(ws[1..], " "));
      LowerConcat(ws[0], " ");
      LowerCapitalize(ws[0]);
    }
  }

  lemma CapitalizeKeepsSpaceFree(w: string)
    requires ' ' !in w
    ensures ' ' !in Capitalize(w)
  {
  }

  /** The title is the name with only the case of its letters changed, and its words are
      exactly the name's words, each capitalised. */
  lemma TitleCasedNameSpec(name: string)
    requires name != ""
    ensures Lower(TitleCasedName(Some(name))) == Lower(name)
    ensures |TitleCasedName(Some(name))| == |name|
    ensures Split(TitleCasedName(Some(name)), ' ') == CapitalizeAll(Split(name, ' '))
  {
    var ws := Split(name, ' ');
    LowerJoinCapitalized(ws);
    JoinSplit(name, ' ');
    assert |Lower(TitleCasedName(Some(name)))| == |TitleCasedName(Some(name))|;
    var cs := CapitalizeAll(ws);
    forall k | 0 <= k < |cs| ensures ' ' !in cs[k] {
      CapitalizeKeepsSpaceFree(ws[k]);
    }
    SplitJoin(cs, ' ');
  }

  /** The role badge: `charAt(0).toUpperCase() + slice(1).toLowerCase()` of the role's literal;
      "N/A" without a role. */
  function RoleBadge(role: Option<Role>): (badge: string)
    ensures role.None? ==> badge == "N/A"
    ensures role.Some? ==> |badge| == |RoleName(role.value)| && Lower(badge) == Lower(RoleName(role.value))
    // the literal's first character upper-cased and the rest lower-cased
    ensures role.Some? ==> RoleName(role.value) != [] && badge[0] == UpperChar(RoleName(role.value)[0])
    ensures role.Some? ==> forall i :: 0 < i < |badge| ==> badge[i] == LowerChar(RoleName(role.value)[i])
  {
    if role.None? then "N/A"
    else
      LowerCapitalize(RoleName(role.value));
      Capitalize(RoleName(role.value))
  }

  /** The underscore is kept: the super administrator's badge is one word. */
  lemma SuperAdminBadge()
    ensures RoleBadge(Some(SuperAdmin)) == "Super_admin"
  {
    CapitalizedSuperAdmin();
    assert RoleBadge(Some(SuperAdmin)) == Capitalize(RoleName(SuperAdmin));
  }

  lemma CapitalizedSuperAdmin()
    ensures Capitalize("SUPER_ADMIN") == "Super_admin"
  {
    var n := "SUPER_ADMIN";
    assert n[1..] == "UPER_ADMIN";
    LowerUperAdmin();
    assert UpperChar(n[0]) == 'S';
    assert Capitalize(n) == [UpperChar(n[0])] + Lower(n[1..]);
    assert ['S'] + "uper_admin" == "Super_admin";
  }

  lemma LowerUperAdmin() ensures Lower("UPER_ADMIN") == "uper_admin" {}

  /** `handleLogout`: drop the token, reset the cache, go to the login page, in that order. */
  function HandleLogout(): (effects: seq<Session.Effect>)
    ensures forall s :: Session.Run(s, effects) == Session.ClientState(false, s.serverSession, {}, "/login")
    ensures |effects| == 3 && effects[2] == Session.Navigate("/login")
  {
    var es := Session.ProfileLogout();
    forall s ensures Session.Run(s, es) == Session.ClientState(false, s.serverSession, {}, "/login") {
      Session.ProfileLogoutOutcome(s);
    }
    es
  }
}
