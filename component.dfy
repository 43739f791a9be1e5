/**
 * The React class component `App`: its state, its `intervalId` field and its lifecycle
 * methods. The browser's interval table is part of the model as two fields: the ids of
 * the intervals still registered, and the next id setInterval will hand out (ids are
 * positive, so a stored id is always truthy).
 */
module Component {
  import opened Wrappers
  import opened TimeFormat
  import opened Profile
  import opened ProfileView

  class App {
    var state: AppState
    /** The handle of the interval started on mount; null until then, and never reset. */
    var intervalId: Option<nat>
    /** Intervals the host still fires: registered by setInterval and not yet cleared. */
    var liveIntervals: set<nat>
    var nextIntervalId: nat
    /** Every update applied to the state so far, in order. */
    ghost var history: seq<Update>

    ghost predicate Valid()
      reads this
    {
      && nextIntervalId >= 1
      && (forall h :: h in liveIntervals ==> 1 <= h < nextIntervalId)
      && (intervalId.Some? ==> 1 <= intervalId.value < nextIntervalId)
      && state == ApplyAll(InitialState, history)
    }

    /** The constructor: demo person, profile hidden, counter zero, no interval yet. */
    constructor ()
      ensures Valid()
      ensures state == InitialState && history == []
      ensures intervalId == None && liveIntervals == {}
    {
      state := InitialState;
      intervalId := None;
      liveIntervals := {};
      nextIntervalId := 1;
      history := [];
    }

    /** componentDidMount: registers a fresh interval and stores its handle. */
    method ComponentDidMount()
      requires Valid()
      modifies this
      ensures Valid()
      ensures intervalId.Some? && intervalId.value !in old(liveIntervals)
      ensures liveIntervals == old(liveIntervals) + {intervalId.value}
      ensures nextIntervalId == old(nextIntervalId) + 1
      ensures state == old(state) && history == old(history)
    {
      intervalId := Some(nextIntervalId);
      liveIntervals := liveIntervals + {nextIntervalId};
      nextIntervalId := nextIntervalId + 1;
    }

    /** The host fires interval h: if it is still registered its callback adds one to the counter. */
    method FireInterval(h: nat)
      requires Valid()
      modifies this
      ensures Valid()
      ensures state == if h in liveIntervals then Ticked(old(state)) else old(state)
      ensures history == if h in liveIntervals then old(history) + [Tick] else old(history)
      ensures intervalId == old(intervalId) && liveIntervals == old(liveIntervals)
      ensures nextIntervalId == old(nextIntervalId)
    {
      if h in liveIntervals {
        state := Ticked(state);
        history := history + [Tick];
        assert history[..|history| - 1] == old(history);
      }
    }

    /** componentWillUnmount: clears the stored interval if there is one; the handle itself is kept. */
    method ComponentWillUnmount()
      requires Valid()
      modifies this
      ensures Valid()
      ensures intervalId == old(intervalId) && nextIntervalId == old(nextIntervalId)
      ensures liveIntervals == if intervalId.Some? then old(liveIntervals) - {intervalId.value} else old(liveIntervals)
      ensures state == old(state) && history == old(history)
    {
      if intervalId.Some? {
        liveIntervals := liveIntervals - {intervalId.value};
      }
    }

    /** toggleShow: flips whether the profile card is shown. */
    method ToggleShow()
      requires Valid()
      modifies this
      ensures Valid()
      ensures state == Toggled(old(state)) && history == old(history) + [Toggle]
      ensures intervalId == old(intervalId) && liveIntervals == old(liveIntervals)
      ensures nextIntervalId == old(nextIntervalId)
    {
      state := Toggled(state);
      history := history + [Toggle];
      assert history[..|history| - 1] == old(history);
    }

    /** Whatever has happened, the counter equals the number of ticks delivered and the flag the parity of toggles. */
    lemma StateFromHistory()
      requires Valid()
      ensures state.timeElapsed == CountTicks(history)
      ensures state.shows == (CountToggles(history) % 2 == 1)
      ensures state.person == DemoPerson
    {
      ApplyAllEffect(InitialState, history);
    }
  }

  /**
   * A full lifetime: mount, three ticks, unmount, then ticks of the cleared interval and a
   * second unmount change nothing; a toggle in between never touches the counter.
   */
  method Lifetime() returns (atThree: string, afterUnmount: string, shown: bool)
    ensures atThree == "0:03" && afterUnmount == "0:03"
    ensures shown
  {
    assert FormatTime(3) == "0:03";
    var app := new App();
    app.ComponentDidMount();
    var id := app.intervalId.value;
    app.FireInterval(id);
    app.ToggleShow();
    app.FireInterval(id);
    app.FireInterval(id);
    assert app.state == AppState(DemoPerson, true, 3);
    atThree := Render(app.state).timeText;
    app.ComponentWillUnmount();
    assert app.liveIntervals == {};
    app.FireInterval(id);
    app.ComponentWillUnmount();
    app.FireInterval(id);
    afterUnmount := Render(app.state).timeText;
    shown := Render(app.state).card.Some?;
  }
}
