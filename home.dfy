/** The home page: a skeleton while the current user loads, then the hero section with its
    call-to-action buttons. */
module Home {
  import opened Types

  /** A hero button: its caption and where it navigates. */
  datatype HeroButton = HeroButton(caption: string, target: string)

  datatype HomeScreen = Skeleton | Hero(buttons: seq<HeroButton>)

  const TrackButton := HeroButton("Track Your Package", "/track")

  /** The four conditional buttons beside the track button, each rendered on its own condition
      on `profile?.role` (absent when there is no user). */
  function SecondaryButtons(role: Option<Role>): (bs: seq<HeroButton>)
    // the four conditions never overlap and always cover the role: exactly one button
    ensures |bs| == 1
    ensures role.None? <==> bs[0] == HeroButton("Learn More", "/about")
    ensures role == Some(Sender) <==> bs[0] == HeroButton("Create Parcel", "/create-parcel")
    ensures role == Some(Receiver) <==> bs[0] == HeroButton("My Parcels", "/receiver/parcels")
    ensures (role == Some(Admin) || role == Some(SuperAdmin)) <==> bs[0] == HeroButton("Analytics", "/admin/analytics")
  {
    assert role.Some? ==> role == Some(role.value) && (role.value.SuperAdmin? || role.value.Admin? || role.value.Sender? || role.value.Receiver?);
    (if role.None? then [HeroButton("Learn More", "/about")] else [])
    + (if role == Some(Sender) then [HeroButton("Create Parcel", "/create-parcel")] else [])
    + (if role == Some(Receiver) then [HeroButton("My Parcels", "/receiver/parcels")] else [])
    + (if role == Some(Admin) || role == Some(SuperAdmin) then [HeroButton("Analytics", "/admin/analytics")] else [])
  }

  /** `HomePage`, given the current-user query. */
  function HomePage(isLoading: bool, role: Option<Role>): (screen: HomeScreen)
    ensures isLoading <==> screen == Skeleton
    ensures !isLoading ==> |screen.buttons| == 2 && screen.buttons[0] == TrackButton
                           && screen.buttons[1] == SecondaryButtons(role)[0]
  {
    if isLoading then Skeleton else Hero([TrackButton] + SecondaryButtons(role))
  }
}
