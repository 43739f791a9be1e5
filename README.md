# Profile Viewer component, modelled in Dafny

The system is a single React class component, `App`, that shows a demo person's profile
card behind a Show/Hide button. Beside the card it shows how long the component has been
mounted, as `m:ss`. This project models the parts of the component that carry logic:

- **`formatTime`** (`time_format.dfy`, with the decimal helpers in `decimal.dfy`). The counter
  becomes `"<seconds div 60>:<seconds mod 60 padded to two digits>"`. It is modelled over
  `nat`, using `NatToString` for `Number.prototype.toString` and `PadStart2` for
  `padStart(2, '0')`. `ParseTime` reads an output back into minutes and seconds, so the round
  trip can be stated.
- **The component state** (`profile.dfy`). `Person` and `AppState` are values. `InitialState`
  is the state the constructor assigns. The two `setState(prevState => ...)` updaters are the
  pure functions `Toggled` and `Ticked`. React merges a partial state into the previous one;
  here that merge is a datatype update. `ApplyAll` runs a sequence of updates.
- **The class** (`component.dfy`). `App` has the fields `state` and `intervalId`. Its
  constructor, `ComponentDidMount`, `ComponentWillUnmount` and `ToggleShow` update those
  fields in place. The browser's interval table is part of the model as two fields:
  `liveIntervals` holds the ids that are registered and not yet cleared, and `nextIntervalId`
  is the next id to hand out. Ids start at 1 because browser interval ids are positive, so
  `if (this.intervalId)` is taken whenever an id was stored. `FireInterval(h)` is the host
  firing interval `h`: it adds one to the counter only while `h` is registered. A ghost
  `history` of applied updates ties `state` to `ApplyAll(InitialState, history)`.
- **The render projection** (`view.dfy`). `Render` maps a state to
  `View(timeText, icon, buttonLabel, card)`: the time text, the `Eye`/`EyeOff` icon, the
  button label, and the profile card when it is present.

## Model

| member | source | states |
|---|---|---|
| `Decimal.NatToString` | src/App.tsx:59 | toString of a natural is a non-empty digit string with no leading zero, and it is one character long exactly when the number is below 10 |
| `Decimal.PadStart2` | src/App.tsx:59 | padStart(2, '0') gives length max(2, \|s\|), ends with s and puts only '0' in front of it |
| `Decimal.NatToStringRoundTrip` | src/App.tsx:57-59 | reading the decimal digits toString wrote gives the number back |
| `Decimal.CanonicalRoundTrip` | src/App.tsx:59 | every digit string with no leading zero is exactly what toString writes for its value (toString is onto the canonical strings) |
| `Decimal.NatToStringInjective` | src/App.tsx:59 | different naturals get different decimal texts |
| `Decimal.PadStart2Value` | src/App.tsx:59 | zero-padding a digit string keeps it a digit string with the same value |
| `TimeFormat.FormatTime` | src/App.tsx:56-60 | formatTime itself; its contract states the colon three places from the end with two digits after it, and its full meaning is stated by `FormatTimeShape` and `FormatTimeRoundTrip` |
| `TimeFormat.PaddedSeconds` | src/App.tsx:58-59 | the padded remainder of a count below 60 is exactly two digits, and its first digit is '0' iff the remainder is below 10 |
| `TimeFormat.FormatTimeShape` | src/App.tsx:56-60 | every output has a canonical minutes field with no colon, then one ':', then exactly two digits; the first of those is '0' iff seconds mod 60 < 10 |
| `TimeFormat.FormatTimeRoundTrip` | src/App.tsx:56-60 | splitting the output at its colon and parsing both sides gives (seconds div 60, seconds mod 60) |
| `TimeFormat.FormatTimeRecombines` | src/App.tsx:57-59 | the parsed fields m and r satisfy m * 60 + r == seconds and r < 60 |
| `TimeFormat.FormatTimeInjective` | src/App.tsx:56-60 | two counter values with the same display are equal |
| `TimeFormat.NoHourRollover` | src/App.tsx:57-59 | for any minute count m, however large, and any s < 60, the display of m * 60 + s reads back as exactly (m, s): there is no hours rollover |
| `TimeFormat.FormatTimeExamples` | src/App.tsx:56-60 | 0, 3, 5, 59 and 60 seconds display as "0:00", "0:03", "0:05", "0:59" and "1:00" |
| `TimeFormat.FormatTimeMoreExamples` | src/App.tsx:56-60 | 65, 125 and 3600 seconds display as "1:05", "2:05" and "60:00" |
| `Profile.Toggled` | src/App.tsx:50-54 | toggleShow's update, merged into the previous state, negates `shows` and keeps `timeElapsed` and `person` |
| `Profile.ToggleTwice` | src/App.tsx:50-54 | toggling twice gives back exactly the original state |
| `Profile.Ticked` | src/App.tsx:37-39 | the interval callback's update, merged into the previous state, adds 1 to `timeElapsed` and keeps `shows` and `person` |
| `Profile.TickToggleCommute` | src/App.tsx:36-54 | a tick and a toggle commute, so the two fields are independent |
| `Profile.ApplyAllEffect` | src/App.tsx:36-54 | after any sequence of updates, the counter has grown by the number of ticks, `shows` has flipped once per toggle, and `person` is unchanged |
| `Profile.ElapsedMonotonic` | src/App.tsx:36-40 | along any run of updates the counter never decreases |
| `Profile.TicksFromInitial` | src/App.tsx:22-40 | n ticks from the constructed state give counter n, the profile still hidden and the demo person |
| `ProfileView.Render` | src/App.tsx:77-120 | the time text is formatTime(timeElapsed); the EyeOff icon, the "Hide Profile" label and the card each appear iff `shows` ("Show Profile" iff not); the card carries exactly imgSrc, fullName as the alt text and heading, profession and bio |
| `ProfileView.InitialView` | src/App.tsx:20-32 | the first render shows "0:00", the Eye icon, "Show Profile" and no card |
| `ProfileView.ToggledViews` | src/App.tsx:50-54 | after one toggle the button reads "Hide Profile" and the card shows Sarah Johnson, Full Stack Developer; after two toggles the view is the first one again |
| `ProfileView.ToggleKeepsTimeText` | src/App.tsx:79-94 | a toggle changes the label and whether the card is present, and never the time text |
| `ProfileView.TickChangesOnlyTimeText` | src/App.tsx:76-80 | a tick always changes the time text and changes nothing else in the view |
| `ProfileView.ThreeSecondsView` | src/App.tsx:36-40 | three ticks after construction the view reads "0:03", with the card still hidden |
| `Component.App.constructor` | src/App.tsx:20-32 | a new component's state is the constant `Profile.InitialState`: the demo person (`Profile.DemoPerson`, the record at lines 23-28), `shows == false`, `timeElapsed == 0`, a null `intervalId` and no interval registered |
| `Component.App.ComponentDidMount` | src/App.tsx:34-41 | registers a new interval that was not live before, stores its id, advances the host's next id and leaves the state alone |
| `Component.App.FireInterval` | src/App.tsx:36-40 | a registered interval firing applies the tick update; an interval that is not registered changes nothing |
| `Component.App.ComponentWillUnmount` | src/App.tsx:43-48 | clears the stored interval and keeps the handle (calling it again clears it again, harmlessly); the state is untouched |
| `Component.App.ToggleShow` | src/App.tsx:50-54 | applies the toggle update and leaves the intervals alone |
| `Component.App.StateFromHistory` | src/App.tsx:36-54 | the counter always equals the number of ticks delivered, `shows` equals the parity of toggles, and the person is always the demo person |
| `Component.Lifetime` | src/App.tsx:34-54 | mount, three ticks and a toggle show "0:03" with the card present; after unmounting, ticks of the cleared interval and a second unmount leave "0:03" |

## Left out

- JSX markup, Tailwind class names, the header and footer text, the "Time since mounted:" caption and the fade-in animation are presentation only. `View` keeps just the data that `render` selects.
- The lucide-react icons become the `Icon` enum. The Clock glyph (always shown) and the User glyph (part of the card, so present exactly when the card is) are dropped. Fetching `imgSrc` is left to the browser, so the URL is an opaque string.
- Real timing is not modelled: there is no 1000 ms period and no wall clock. A tick is an explicit `FireInterval` call. The browser's interval table is shared by the whole page; here it is per component.
- React's `setState` batching and asynchronous merging are not modelled. Each updater is applied atomically, in call order.
- JavaScript `number` semantics are not modelled. `Math.floor` and `%` on negative, fractional or very large (above 2^53) values never arise from the counter, so the model uses `nat`.
- `Component.App.ComponentDidMount` does not guard against being called twice without an unmount in between; nor does the source. In that case the first interval stays registered and keeps ticking. React never mounts an instance twice without unmounting it, so "exactly one live interval per instance" holds only under that lifecycle order. The model does not enforce it.
