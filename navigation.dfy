/**
 * The script's mutable part: the exit-zone state machine over
 * `activeExitAreaName` and the host's banner, and the clock popup handle.
 *
 * The pure functions `Enter`, `Leave` and `Run` state what the handlers do to
 * the observable state; the class `ExitNavigation` holds the script's
 * module-level variables and its handlers are proved against those functions.
 */
module Navigation {
  import opened Wrappers
  import opened ExitZones

  /** The single banner slot the exit handler writes to. */
  const ExitBannerId: string := "exit-navigation"
  /** The id of the clock popup. */
  const ClockPopupId: string := "clockPopup"

  /** A banner as the host shows it (styling left out). */
  datatype Banner = Banner(id: string, text: string)

  /** A popup as the host shows it (no buttons). */
  datatype Popup = Popup(id: string, message: string)

  /** The observable state of the exit feature: the active area and the banner slot. */
  datatype ExitState = ExitState(active: Option<string>, banner: Option<Banner>)

  /** Nothing entered yet: no active area, no banner. */
  const Initial: ExitState := ExitState(None, None)

  /** A banner is shown exactly when some exit area is active. */
  predicate Consistent(st: ExitState)
  {
    st.banner.Some? <==> st.active.Some?
  }

  /** The enter handler of an exit zone: it records the area and opens the banner, whatever came before. */
  function Enter(st: ExitState, zone: ExitZone): (r: ExitState)
    ensures Consistent(r) && r.active == Some(zone.areaName)
    ensures r.banner.Some? && r.banner.value.id == ExitBannerId && r.banner.value.text == zone.destinationLabel
  {
    ExitState(Some(zone.areaName), Some(Banner(ExitBannerId, zone.destinationLabel)))
  }

  /** The leave handler: only the active area's leave clears the state and closes the banner. */
  function Leave(st: ExitState, areaName: string): (r: ExitState)
    ensures r.active != Some(areaName)
    ensures st.active != Some(areaName) ==> r == st
    ensures st.active == Some(areaName) ==> r == ExitState(None, None)
    ensures Consistent(st) ==> Consistent(r)
  {
    if st.active != Some(areaName) then st else ExitState(None, None)
  }

  /** A notification delivered to one of the registered handlers. */
  datatype Event = Entered(zone: ExitZone) | Left(areaName: string)

  /** One notification; each keeps "banner shown exactly when an area is active". */
  function Step(st: ExitState, e: Event): (r: ExitState)
    ensures Consistent(st) ==> Consistent(r)
  {
    match e
    case Entered(zone) => Enter(st, zone)
    case Left(areaName) => Leave(st, areaName)
  }

  /** The state after a sequence of notifications, from the initial state. */
  function Run(events: seq<Event>): (r: ExitState)
    ensures Consistent(r)
  {
    if events == [] then Initial else Step(Run(events[..|events| - 1]), events[|events| - 1])
  }

  /**
   * The enter at position `i` still owns the state at the end: no later
   * enter, and no later leave of its area.
   */
  predicate StillActive(events: seq<Event>, i: int)
  {
    0 <= i < |events| && events[i].Entered? &&
    forall j :: i < j < |events| ==> !events[j].Entered? && events[j] != Left(events[i].zone.areaName)
  }

  /** `st` is the state the enters of `events` that still own it describe. */
  ghost predicate OwnedBy(events: seq<Event>, st: ExitState)
  {
    (st.active.None? <==> forall i :: 0 <= i < |events| ==> !StillActive(events, i)) &&
    forall i :: StillActive(events, i) ==>
      st == ExitState(Some(events[i].zone.areaName), Some(Banner(ExitBannerId, events[i].zone.destinationLabel)))
  }

  /** One more notification keeps the state described by the enters that still own it. */
  lemma OwnedByStep(front: seq<Event>, e: Event, st: ExitState)
    requires OwnedBy(front, st)
    ensures OwnedBy(front + [e], Step(st, e))
  {
    var events := front + [e];
    var n := |front|;
    assert forall i :: 0 <= i < n ==> events[i] == front[i];
    assert forall i :: 0 <= i < n && StillActive(events, i) ==> StillActive(front, i);
    match e
    case Entered(zone) =>
      assert StillActive(events, n);
    case Left(a) =>
      assert !StillActive(events, n);
      if st.active == Some(a) {
        assert Step(st, e) == ExitState(None, None);
        forall i | 0 <= i < n ensures !StillActive(events, i) {
          if StillActive(front, i) {
            assert events[n] == Left(events[i].zone.areaName);
          }
        }
      } else {
        assert Step(st, e) == st;
        forall i | 0 <= i < n && StillActive(front, i) ensures StillActive(events, i) {
          assert events[n] != Left(events[i].zone.areaName);
        }
      }
  }

  /**
   * The state after any sequence of notifications: an area is active exactly
   * when some enter still owns the state, and then the state is that enter's
   * area with that zone's banner. Leaves of other areas, however late, leave
   * it alone.
   */
  lemma {:induction false} RunActive(events: seq<Event>)
    ensures Run(events).active.None? <==> forall i :: 0 <= i < |events| ==> !StillActive(events, i)
    ensures forall i :: StillActive(events, i) ==>
      Run(events) == ExitState(Some(events[i].zone.areaName), Some(Banner(ExitBannerId, events[i].zone.destinationLabel)))
  {
    if events != [] {
      var n := |events| - 1;
      RunActive(events[..n]);
      OwnedByStep(events[..n], events[n], Run(events[..n]));
      assert events[..n] + [events[n]] == events;
    }
  }

  /**
   * enter(A), enter(B), leave(A): the late leave of A does not touch B's
   * state; B is active and B's banner is still shown.
   */
  lemma LateLeaveKeepsNewZone(a: ExitZone, b: ExitZone)
    requires a.areaName != b.areaName
    ensures Run([Entered(a), Entered(b), Left(a.areaName)]) ==
      ExitState(Some(b.areaName), Some(Banner(ExitBannerId, b.destinationLabel)))
  {
    var events := [Entered(a), Entered(b), Left(a.areaName)];
    RunActive(events);
    assert StillActive(events, 1);
  }

  /** The clock feature's state: the script's handle and the popups the host shows. */
  datatype ClockState = ClockState(current: Option<Popup>, shown: multiset<Popup>)

  /** `closePopup`: close the handle's popup, if any, and forget the handle. */
  function ClosePopupState(c: ClockState): (r: ClockState)
    ensures r.current.None?
    ensures r.shown <= c.shown
    ensures c.current.None? ==> r == c
    ensures c.current.Some? && c.current.value in c.shown ==> r.shown[c.current.value] + 1 == c.shown[c.current.value]
    ensures c.current.Some? ==> forall q :: q != c.current.value ==> r.shown[q] == c.shown[q]
  {
    match c.current
    case None => c
    case Some(p) => ClockState(None, c.shown - multiset{p})
  }

  /** Closing twice is closing once, and afterwards there is no handle. */
  lemma ClosePopupIdempotent(c: ClockState)
    ensures ClosePopupState(c).current.None?
    ensures ClosePopupState(ClosePopupState(c)) == ClosePopupState(c)
  {
  }

  /**
   * The script's module-level state. `banner` and `shownPopups` stand for
   * what the host displays; the script never reads them.
   */
  class ExitNavigation {
    var activeExitAreaName: Option<string>
    ghost var banner: Option<Banner>
    var currentPopup: Option<Popup>
    ghost var shownPopups: multiset<Popup>

    ghost function State(): ExitState
      reads this
    {
      ExitState(activeExitAreaName, banner)
    }

    ghost function Clock(): ClockState
      reads this
    {
      ClockState(currentPopup, shownPopups)
    }

    ghost predicate Valid()
      reads this
    {
      Consistent(State()) && (currentPopup.Some? ==> currentPopup.value in shownPopups)
    }

    constructor ()
      ensures Valid()
      ensures State() == Initial && Clock() == ClockState(None, multiset{})
    {
      activeExitAreaName := None;
      banner := None;
      currentPopup := None;
      shownPopups := multiset{};
    }

    /** The enter subscription of an exit zone. */
    method OnEnter(zone: ExitZone)
      requires Valid()
      modifies this
      ensures Valid()
      ensures State() == Enter(old(State()), zone)
      ensures activeExitAreaName == Some(zone.areaName)
      ensures banner == Some(Banner(ExitBannerId, zone.destinationLabel))
      ensures Clock() == old(Clock())
    {
      activeExitAreaName := Some(zone.areaName);
      banner := Some(Banner(ExitBannerId, zone.destinationLabel));
    }

    /** The leave subscription of the exit zone named `areaName`. */
    method OnLeave(areaName: string)
      requires Valid()
      modifies this
      ensures Valid()
      ensures State() == Leave(old(State()), areaName)
      ensures old(activeExitAreaName) != Some(areaName) ==> State() == old(State())
      ensures old(activeExitAreaName) == Some(areaName) ==> activeExitAreaName.None? && banner.None?
      ensures banner.Some? <==> activeExitAreaName.Some?
      ensures Clock() == old(Clock())
    {
      if activeExitAreaName != Some(areaName) {
        return;
      }
      activeExitAreaName := None;
      banner := None;
    }

    /** The enter subscription of the `clock` area; `time` is the clock text the host supplies. */
    method OnEnterClock(time: string)
      requires Valid()
      modifies this
      ensures Valid()
      ensures currentPopup == Some(Popup(ClockPopupId, "It's " + time))
      ensures shownPopups == old(shownPopups) + multiset{Popup(ClockPopupId, "It's " + time)}
      ensures State() == old(State())
    {
      var popup := Popup(ClockPopupId, "It's " + time);
      shownPopups := shownPopups + multiset{popup};
      currentPopup := Some(popup);
    }

    /** `closePopup`, also the leave subscription of the `clock` area. */
    method ClosePopup()
      requires Valid()
      modifies this
      ensures Valid()
      ensures Clock() == ClosePopupState(old(Clock()))
      ensures currentPopup.None?
      ensures old(currentPopup).None? ==> shownPopups == old(shownPopups)
      ensures State() == old(State())
    {
      if currentPopup.Some? {
        shownPopups := shownPopups - multiset{currentPopup.value};
        currentPopup := None;
      }
    }
  }

  /** The handlers, called in the order enter(A), enter(B), leave(A), end with B active and shown. */
  method LateLeaveScenario(a: ExitZone, b: ExitZone) returns (nav: ExitNavigation)
    requires a.areaName != b.areaName
    ensures nav.activeExitAreaName == Some(b.areaName)
    ensures nav.banner == Some(Banner(ExitBannerId, b.destinationLabel))
  {
    nav := new ExitNavigation();
    nav.OnEnter(a);
    nav.OnEnter(b);
    nav.OnLeave(a.areaName);
  }

  /** Calling `closePopup` twice leaves the same state as calling it once, and no exit state changes. */
  method ClosePopupTwice(nav: ExitNavigation)
    requires nav.Valid()
    modifies nav
    ensures nav.Clock() == ClosePopupState(old(nav.Clock()))
    ensures nav.State() == old(nav.State())
  {
    nav.ClosePopup();
    nav.ClosePopup();
  }
}
