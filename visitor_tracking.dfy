/** The client hook that reports a visit at most once per calendar day per
    browser storage: a `hasTracked` flag that lives as long as the mounted
    component and the `visitor-tracked` entry of local storage. The 1 s
    timer is left out; "today" and the server's answer are inputs. */
module VisitorTracking {
  import opened Common

  const StorageKey := "visitor-tracked"

  /** How the `POST /api/analytics` request ended. */
  datatype TrackResponse = ResponseOk | ResponseNotOk | RequestThrew

  /** The flag and the stored date (`None`: nothing stored). */
  datatype TrackerState = TrackerState(hasTracked: bool, lastTracked: Option<string>)

  /** The state after one run of the effect, whether a request was sent and
      whether it succeeded. */
  datatype TrackStep = TrackStep(state: TrackerState, posted: bool, succeeded: bool)

  /** One run of the effect: nothing when already tracked or when today is
      stored; otherwise one request, and only an OK answer stores today and
      sets the flag. */
  function Track(st: TrackerState, today: string, response: TrackResponse): (r: TrackStep)
    ensures st.hasTracked || st.lastTracked == Some(today) ==> r == TrackStep(st, false, false)
    ensures !st.hasTracked && st.lastTracked != Some(today) ==> r.posted
    ensures r.succeeded <==> r.posted && response == ResponseOk
    ensures r.succeeded ==> r.state == TrackerState(true, Some(today))
    ensures !r.succeeded ==> r.state == st
  {
    if st.hasTracked then TrackStep(st, false, false)
    else if st.lastTracked == Some(today) then TrackStep(st, false, false)
    else if response == ResponseOk then TrackStep(TrackerState(true, Some(today)), true, true)
    else TrackStep(st, true, false)
  }

  /** What happens in a browser: a page load mounts the hook afresh (the
      flag starts false, the storage stays), and a mounted hook runs. */
  datatype Event = Remount | Run(today: string, response: TrackResponse)

  function Replay(st: TrackerState, events: seq<Event>): (final: TrackerState)
    decreases |events|
  {
    if events == [] then st
    else match events[0]
      case Remount => Replay(st.(hasTracked := false), events[1..])
      case Run(today, response) => Replay(Track(st, today, response).state, events[1..])
  }

  /** Number of requests that succeeded during the events. */
  function Successes(st: TrackerState, events: seq<Event>): (n: nat)
    ensures n <= |events|
    decreases |events|
  {
    if events == [] then 0
    else match events[0]
      case Remount => Successes(st.(hasTracked := false), events[1..])
      case Run(today, response) =>
        var step := Track(st, today, response);
        (if step.succeeded then 1 else 0) + Successes(step.state, events[1..])
  }

  /** Two tabs read the stored date before either writes it. Both find no
      report for today, so both send one and both succeed: a day can see two
      successful reports when page loads overlap. */
  lemma {:induction false} OverlappingTabsBothReport(stored: Option<string>, today: string)
    requires stored != Some(today)
    ensures var tabA := Track(TrackerState(false, stored), today, ResponseOk);
      var tabB := Track(TrackerState(false, stored), today, ResponseOk);
      tabA.succeeded && tabB.succeeded
  {
  }

  /** Within one calendar day, however often the page is loaded and
      whatever the server answers, at most one report succeeds, and none
      when the day is already stored. */
  lemma {:induction false} AtMostOneSuccessPerDay(st: TrackerState, events: seq<Event>, day: string)
    requires forall i :: 0 <= i < |events| && events[i].Run? ==> events[i].today == day
    ensures Successes(st, events) <= (if st.lastTracked == Some(day) then 0 else 1)
    decreases |events|
  {
    if events != [] {
      var rest := events[1..];
      assert forall i :: 0 <= i < |rest| && rest[i].Run? ==> rest[i].today == day by {
        forall i | 0 <= i < |rest| ensures rest[i] == events[i + 1] { }
      }
      match events[0]
      case Remount =>
        AtMostOneSuccessPerDay(st.(hasTracked := false), rest, day);
      case Run(today, response) =>
        AtMostOneSuccessPerDay(Track(st, today, response).state, rest, day);
    }
  }

  /** The hook's refs and the browser's storage. */
  class VisitorTracker {
    var hasTracked: bool
    var lastTracked: Option<string>

    ghost function State(): TrackerState
      reads this
    {
      TrackerState(hasTracked, lastTracked)
    }

    /** A first mount in a browser whose storage holds `stored`. */
    constructor (stored: Option<string>)
      ensures State() == TrackerState(false, stored)
    {
      hasTracked := false;
      lastTracked := stored;
    }

    /** A new page load: a fresh component instance, the same storage. */
    method Remount()
      modifies this
      ensures State() == old(State()).(hasTracked := false)
    {
      hasTracked := false;
    }

    /** The effect body and `trackVisitor`. */
    method RunEffect(today: string, response: TrackResponse) returns (posted: bool)
      modifies this
      ensures var step := Track(old(State()), today, response);
        State() == step.state && posted == step.posted
    {
      posted := false;
      if hasTracked {
        return;
      }
      var stored := lastTracked;
      if stored == Some(today) {
        return;
      }
      posted := true;
      if response == ResponseOk {
        lastTracked := Some(today);
        hasTracked := true;
      }
    }
  }
}
