/**
 * What `render` selects from the state, reduced to data: the time text, the toggle
 * button's icon and label, and the profile card with the person fields it shows.
 * Markup, styling and the fixed header and footer texts carry no logic and are not part of it.
 */
module ProfileView {
  import opened Wrappers
  import opened TimeFormat
  import opened Profile

  datatype Icon = Eye | EyeOff

  /** The profile card: the avatar's source and alt text, the heading, the profession line and the About text. */
  datatype Card = Card(imgSrc: string, imgAlt: string, heading: string, profession: string, about: string)

  datatype View = View(timeText: string, icon: Icon, buttonLabel: string, card: Option<Card>)

  const ShowLabel := "Show Profile"
  const HideLabel := "Hide Profile"

  function Render(s: AppState): (v: View)
    ensures v.timeText == FormatTime(s.timeElapsed)
    ensures v.icon == EyeOff <==> s.shows
    ensures v.buttonLabel == HideLabel <==> s.shows
    ensures v.buttonLabel == ShowLabel <==> !s.shows
    ensures v.card.Some? <==> s.shows
    ensures v.card.Some? ==> v.card.value == Card(s.person.imgSrc, s.person.fullName, s.person.fullName, s.person.profession, s.person.bio)
  {
    View(
      FormatTime(s.timeElapsed),
      if s.shows then EyeOff else Eye,
      if s.shows then HideLabel else ShowLabel,
      if s.shows then Some(Card(s.person.imgSrc, s.person.fullName, s.person.fullName, s.person.profession, s.person.bio)) else None)
  }

  /** The first render: time "0:00", the Eye icon with "Show Profile", no card. */
  lemma InitialView()
    ensures Render(InitialState) == View("0:00", Eye, ShowLabel, None)
  {
    FormatTimeExamples();
  }

  /** After one toggle the card shows the demo person; after a second the view is the first one again. */
  lemma ToggledViews()
    ensures Render(Toggled(InitialState)).buttonLabel == HideLabel
    ensures Render(Toggled(InitialState)).card == Some(Card(DemoPerson.imgSrc, "Sarah Johnson", "Sarah Johnson", "Full Stack Developer", DemoPerson.bio))
    ensures Render(Toggled(Toggled(InitialState))) == Render(InitialState)
  {
  }

  /** Toggling changes the button and the card but never the time text. */
  lemma ToggleKeepsTimeText(s: AppState)
    ensures Render(Toggled(s)).timeText == Render(s).timeText
    ensures Render(Toggled(s)).buttonLabel != Render(s).buttonLabel
    ensures Render(Toggled(s)).card.Some? != Render(s).card.Some?
  {
  }

  /** A tick changes the time text and nothing else in the view. */
  lemma TickChangesOnlyTimeText(s: AppState)
    ensures Render(Ticked(s)).timeText != Render(s).timeText
    ensures Render(Ticked(s)).(timeText := Render(s).timeText) == Render(s)
  {
    var t := Ticked(s);
    assert t.shows == s.shows && t.person == s.person && t.timeElapsed == s.timeElapsed + 1;
    if Render(t).timeText == Render(s).timeText {
      FormatTimeInjective(t.timeElapsed, s.timeElapsed);
    }
  }

  /** Three ticks after construction the panel reads "0:03" and the card is still hidden. */
  lemma ThreeSecondsView()
    ensures Render(ApplyAll(InitialState, [Tick, Tick, Tick])) == View("0:03", Eye, ShowLabel, None)
  {
    TicksFromInitial(3);
    assert [Tick, Tick, Tick] == seq(3, _ => Tick);
  }
}
