/**
 * The rooms page: the student's one-room-at-a-time check-in rule, and the
 * summary figures and "occupied" view derived from the server's room lists.
 */
module Rooms {
  import opened Optional

  /** Room ids on this page are the server's numeric ids. */
  type RoomId = int

  datatype Source = Student | Admin

  /** Body of an occupancy event request sent to the server. */
  datatype Event = Event(room: RoomId, delta: int, source: Source)

  // ---- The check-in state machine ---------------------------------------------------

  /**
   * Whether the recorded room counts as "set" in the page's guard: it is
   * JavaScript truthiness, so a null record and the id 0 both read as unset.
   */
  predicate Truthy(current: Option<RoomId>)
  {
    current.Some? && current.value != 0
  }

  /** The client guard of a check-in: refused only while set to a different room. */
  predicate CheckInAdmitted(current: Option<RoomId>, room: RoomId)
  {
    !(Truthy(current) && current.value != room)
  }

  /** Recorded room after a check-in attempt, given the server's verdict. */
  function CheckInNext(current: Option<RoomId>, room: RoomId, responseOk: bool): Option<RoomId>
  {
    if CheckInAdmitted(current, room) && responseOk then Some(room) else current
  }

  /** Recorded room after a check-out attempt: cleared only on success for that same room. */
  function CheckOutNext(current: Option<RoomId>, room: RoomId, responseOk: bool): Option<RoomId>
  {
    if responseOk && current == Some(room) then None else current
  }

  /**
   * Check-in guard: refused exactly while recorded in a different truthy room.
   * A null record or the id 0 never blocks, and a refused attempt changes nothing.
   */
  lemma CheckInRefusal(current: Option<RoomId>, room: RoomId, responseOk: bool)
    ensures current == None || current == Some(0) ==> CheckInAdmitted(current, room)
    ensures !CheckInAdmitted(current, room) ==> CheckInNext(current, room, responseOk) == current
    ensures CheckInAdmitted(Some(room), room)
  {
  }

  /** An admitted check-in records the room on success and changes nothing on failure. */
  lemma CheckInOutcome(current: Option<RoomId>, room: RoomId, responseOk: bool)
    requires CheckInAdmitted(current, room)
    ensures responseOk ==> CheckInNext(current, room, responseOk) == Some(room)
    ensures !responseOk ==> CheckInNext(current, room, responseOk) == current
  {
  }

  /** A check-out clears the record only when it succeeds and names the recorded room. */
  lemma CheckOutOutcome(current: Option<RoomId>, room: RoomId, responseOk: bool)
    ensures CheckOutNext(current, room, responseOk) == None <==> current == None || (responseOk && current == Some(room))
    ensures CheckOutNext(current, room, responseOk) != current ==> responseOk && current == Some(room)
  {
  }

  // ---- Handlers as click and response --------------------------------------------

  /**
   * A request in flight, with what its handler captured at click time: a
   * check-out remembers whether the record named its room when it was clicked.
   */
  datatype Pending = PendingCheckIn(room: RoomId) | PendingCheckOut(room: RoomId, clears: bool)

  /** The page: the recorded room and the requests still awaiting an answer, oldest first. */
  datatype Page = Page(current: Option<RoomId>, pending: seq<Pending>)

  /** What happens next: a click, or the answer to the in-flight request at `index`. */
  datatype Move = ClickCheckIn(room: RoomId) | ClickCheckOut(room: RoomId) | Answer(index: nat, ok: bool)

  /** The record after an answer arrives; only a successful answer changes it. */
  function Answered(current: Option<RoomId>, q: Pending, ok: bool): Option<RoomId>
  {
    if !ok then current
    else match q
      case PendingCheckIn(room) => Some(room)
      case PendingCheckOut(_, clears) => if clears then None else current
  }

  /** The sequence without its element at index i. */
  function Without(s: seq<Pending>, i: nat): (r: seq<Pending>)
    requires i < |s|
    ensures |r| == |s| - 1
    ensures forall k :: 0 <= k < |r| ==> r[k] == s[if k < i then k else k + 1]
  {
    s[..i] + s[i + 1..]
  }

  /** The page as the handlers change it: guards read the click-time record. */
  function AfterMove(p: Page, m: Move): Page
  {
    match m
    case ClickCheckIn(room) =>
      if CheckInAdmitted(p.current, room) then p.(pending := p.pending + [PendingCheckIn(room)]) else p
    case ClickCheckOut(room) =>
      p.(pending := p.pending + [PendingCheckOut(room, p.current == Some(room))])
    case Answer(i, ok) =>
      if i < |p.pending| then Page(Answered(p.current, p.pending[i], ok), Without(p.pending, i)) else p
  }

  /** A click answered before anything else happens is the one-step check-in or check-out. */
  lemma ClickThenAnswer(current: Option<RoomId>, room: RoomId, ok: bool)
    ensures CheckInAdmitted(current, room) ==>
      AfterMove(AfterMove(Page(current, []), ClickCheckIn(room)), Answer(0, ok)) == Page(CheckInNext(current, room, ok), [])
    ensures !CheckInAdmitted(current, room) ==>
      AfterMove(Page(current, []), ClickCheckIn(room)) == Page(current, [])
    ensures AfterMove(AfterMove(Page(current, []), ClickCheckOut(room)), Answer(0, ok)) == Page(CheckOutNext(current, room, ok), [])
  {
    assert Without([PendingCheckIn(room)], 0) == [];
    assert Without([PendingCheckOut(room, current == Some(room))], 0) == [];
  }

  /** The student's session on the rooms page. */
  class StudentSession {
    /** The room the student is recorded in; None is the page's null. */
    var currentRoom: Option<RoomId>
    /** Requests sent and not yet answered. */
    var inFlight: seq<Pending>

    function State(): Page
      reads this
    {
      Page(currentRoom, inFlight)
    }

    constructor ()
      ensures State() == Page(None, [])
    {
      currentRoom := None;
      inFlight := [];
    }

    /**
     * A click on Check In: the guard reads the record as it is now. Returns the
     * request sent, None when the guard refused before sending anything.
     */
    method HandleCheckIn(room: RoomId) returns (request: Option<Event>)
      modifies this
      ensures request == (if CheckInAdmitted(old(currentRoom), room) then Some(Event(room, 1, Student)) else None)
      ensures State() == AfterMove(old(State()), ClickCheckIn(room))
    {
      if currentRoom.Some? && currentRoom.value != 0 && currentRoom.value != room {
        return None;
      }
      request := Some(Event(room, 1, Student));
      inFlight := inFlight + [PendingCheckIn(room)];
    }

    /** A click on Check Out: always sends the request, remembering whether the record names the room now. */
    method HandleCheckOut(room: RoomId) returns (request: Event)
      modifies this
      ensures request == Event(room, -1, Student)
      ensures State() == AfterMove(old(State()), ClickCheckOut(room))
    {
      request := Event(room, -1, Student);
      inFlight := inFlight + [PendingCheckOut(room, currentRoom == Some(room))];
    }

    /**
     * The answer to the in-flight request at `index` arrives; `responseOk` is
     * the server's verdict (a thrown request counts as false).
     */
    method HandleResponse(index: nat, responseOk: bool)
      requires index < |inFlight|
      modifies this
      ensures State() == AfterMove(old(State()), Answer(index, responseOk))
    {
      var q := inFlight[index];
      if responseOk {
        match q
        case PendingCheckIn(room) =>
          currentRoom := Some(room);
        case PendingCheckOut(_, clears) =>
          if clears {
            currentRoom := None;
          }
      }
      inFlight := inFlight[..index] + inFlight[index + 1..];
    }
  }

  /** The page after the moves, the last move applied last. */
  function Play(p: Page, moves: seq<Move>): Page
    decreases |moves|
  {
    if moves == [] then p else AfterMove(Play(p, moves[..|moves| - 1]), moves[|moves| - 1])
  }

  /** Some check-in click among the moves named the room and was admitted against the record at that point. */
  ghost predicate Witnessed(moves: seq<Move>, room: RoomId)
  {
    exists i :: 0 <= i < |moves| && moves[i] == ClickCheckIn(room)
                && CheckInAdmitted(Play(Page(None, []), moves[..i]).current, room)
  }

  lemma WitnessedExtends(moves: seq<Move>, n: nat, room: RoomId)
    requires n <= |moves|
    requires Witnessed(moves[..n], room)
    ensures Witnessed(moves, room)
  {
    var i :| 0 <= i < n && moves[..n][i] == ClickCheckIn(room)
             && CheckInAdmitted(Play(Page(None, []), moves[..n][..i]).current, room);
    assert moves[..n][..i] == moves[..i];
  }

  /**
   * As written, under any interleaving of clicks and answers from the initial
   * page, the recorded room and every in-flight check-in name a room that a
   * check-in click named and the guard admitted at that point.
   */
  lemma {:induction false} PlayRecordsAdmittedRoom(moves: seq<Move>)
    ensures Play(Page(None, []), moves).current.Some? ==> Witnessed(moves, Play(Page(None, []), moves).current.value)
    ensures forall k :: 0 <= k < |Play(Page(None, []), moves).pending| && Play(Page(None, []), moves).pending[k].PendingCheckIn?
              ==> Witnessed(moves, Play(Page(None, []), moves).pending[k].room)
    decreases |moves|
  {
    if moves != [] {
      var n := |moves| - 1;
      var before := Play(Page(None, []), moves[..n]);
      var after := Play(Page(None, []), moves);
      PlayRecordsAdmittedRoom(moves[..n]);
      assert after == AfterMove(before, moves[n]);
      if before.current.Some? {
        WitnessedExtends(moves, n, before.current.value);
      }
      forall k | 0 <= k < |before.pending| && before.pending[k].PendingCheckIn?
        ensures Witnessed(moves, before.pending[k].room)
      {
        WitnessedExtends(moves, n, before.pending[k].room);
      }
      match moves[n]
      case ClickCheckIn(room) =>
        if CheckInAdmitted(before.current, room) {
          assert Witnessed(moves, room);
          assert after.pending == before.pending + [PendingCheckIn(room)];
        }
      case ClickCheckOut(room) =>
        assert after.pending == before.pending + [PendingCheckOut(room, before.current == Some(room))];
      case Answer(i, ok) =>
        if i < |before.pending| {
          assert forall k :: 0 <= k < |after.pending| ==> after.pending[k] == before.pending[if k < i then k else k + 1];
        }
    }
  }

  /**
   * As written, two overlapping check-ins both pass the guard: the record
   * moves from room 1 straight to room 2 with no check-out, after both
   * `+1` requests were accepted.
   */
  lemma OverlappingCheckInsSwitchRooms()
    ensures var moves := [ClickCheckIn(1), ClickCheckIn(2), Answer(0, true), Answer(0, true)];
      && Play(Page(None, []), moves[..2]).pending == [PendingCheckIn(1), PendingCheckIn(2)]
      && Play(Page(None, []), moves[..3]).current == Some(1)
      && Play(Page(None, []), moves).current == Some(2)
  {
    var moves := [ClickCheckIn(1), ClickCheckIn(2), Answer(0, true), Answer(0, true)];
    var p0 := Page(None, []);
    assert moves[..0] == [];
    assert moves[..1][..0] == [];
    assert Play(p0, moves[..1]) == Page(None, [PendingCheckIn(1)]);
    assert moves[..2][..1] == moves[..1];
    assert Play(p0, moves[..2]) == Page(None, [PendingCheckIn(1), PendingCheckIn(2)]);
    assert moves[..3][..2] == moves[..2];
    assert Play(p0, moves[..3]) == Page(Some(1), [PendingCheckIn(2)]);
    assert moves[..3] == moves[..|moves| - 1];
  }

  /**
   * As written, a check-out clicked while its room's check-in is still in
   * flight remembers the stale null record: both requests succeed, yet the
   * record stays on the room the server has just counted the student out of.
   */
  lemma StaleCheckOutKeepsRoom()
    ensures var moves := [ClickCheckIn(5), ClickCheckOut(5), Answer(0, true), Answer(0, true)];
      && Play(Page(None, []), moves[..2]).pending == [PendingCheckIn(5), PendingCheckOut(5, false)]
      && Play(Page(None, []), moves).current == Some(5)
  {
    var moves := [ClickCheckIn(5), ClickCheckOut(5), Answer(0, true), Answer(0, true)];
    var p0 := Page(None, []);
    assert moves[..0] == [];
    assert moves[..1][..0] == [];
    assert Play(p0, moves[..1]) == Page(None, [PendingCheckIn(5)]);
    assert moves[..2][..1] == moves[..1];
    assert Play(p0, moves[..2]) == Page(None, [PendingCheckIn(5), PendingCheckOut(5, false)]);
    assert moves[..3][..2] == moves[..2];
    assert Play(p0, moves[..3]) == Page(Some(5), [PendingCheckOut(5, false)]);
    assert moves[..3] == moves[..|moves| - 1];
  }

  // ---- The one-room rule, corrected for overlapping calls ---------------------------

  /** Every in-flight check-in names this room. */
  predicate CheckInsTo(pending: seq<Pending>, room: RoomId)
  {
    forall k :: 0 <= k < |pending| && pending[k].PendingCheckIn? ==> pending[k].room == room
  }

  /**
   * Corrected guard: besides the recorded room, a check-in still in flight to
   * another room also blocks.
   */
  predicate GuardedAdmits(p: Page, room: RoomId)
  {
    CheckInAdmitted(p.current, room) && CheckInsTo(p.pending, room)
  }

  /**
   * Corrected handlers: the check-in guard also sees in-flight check-ins, and
   * a successful check-out clears the record if it names the room when the
   * answer arrives, not when the button was clicked.
   */
  function GuardedAfterMove(p: Page, m: Move): Page
  {
    match m
    case ClickCheckIn(room) =>
      if GuardedAdmits(p, room) then p.(pending := p.pending + [PendingCheckIn(room)]) else p
    case ClickCheckOut(room) =>
      p.(pending := p.pending + [PendingCheckOut(room, true)])
    case Answer(i, ok) =>
      if i < |p.pending| then
        var q := p.pending[i];
        var current := if ok && q.PendingCheckOut? then (if p.current == Some(q.room) then None else p.current)
                       else Answered(p.current, q, ok);
        Page(current, Without(p.pending, i))
      else p
  }

  /** All in-flight check-ins agree on one room, and on the recorded room when it is truthy. */
  ghost predicate OneRoom(p: Page)
  {
    && (forall j, k :: 0 <= j < |p.pending| && 0 <= k < |p.pending| && p.pending[j].PendingCheckIn? && p.pending[k].PendingCheckIn?
          ==> p.pending[j].room == p.pending[k].room)
    && (Truthy(p.current) ==> CheckInsTo(p.pending, p.current.value))
  }

  /**
   * Under the corrected handlers every move keeps OneRoom; a truthy record
   * only ever stays or clears; and a successful check-out answer never leaves
   * the record on its room.
   */
  lemma GuardedStep(p: Page, m: Move)
    requires OneRoom(p)
    ensures OneRoom(GuardedAfterMove(p, m))
    ensures Truthy(p.current) ==> GuardedAfterMove(p, m).current in {p.current, None}
    ensures m.Answer? && m.index < |p.pending| && m.ok && p.pending[m.index].PendingCheckOut? ==>
      GuardedAfterMove(p, m).current != Some(p.pending[m.index].room)
  {
    var r := GuardedAfterMove(p, m);
    match m
    case ClickCheckIn(room) =>
      if GuardedAdmits(p, room) {
        assert r.pending == p.pending + [PendingCheckIn(room)];
        assert CheckInsTo(r.pending, room);
      }
    case ClickCheckOut(room) =>
    case Answer(i, ok) =>
      if i < |p.pending| {
        var q := p.pending[i];
        assert forall k :: 0 <= k < |r.pending| ==> r.pending[k] == p.pending[if k < i then k else k + 1];
        if ok && q.PendingCheckIn? {
          assert CheckInsTo(r.pending, q.room);
        }
      }
  }

  /** The page after the moves under the corrected handlers, from the initial page. */
  function GuardedPlay(moves: seq<Move>): Page
    decreases |moves|
  {
    if moves == [] then Page(None, []) else GuardedAfterMove(GuardedPlay(moves[..|moves| - 1]), moves[|moves| - 1])
  }

  /**
   * Corrected one-room rule, for any interleaving of clicks and answers from
   * the initial page: once recorded in a truthy room, the record never moves
   * to another room without being cleared first.
   */
  lemma {:induction false} GuardedPlayOneRoom(moves: seq<Move>)
    ensures OneRoom(GuardedPlay(moves))
    ensures forall n :: 0 < n <= |moves| && Truthy(GuardedPlay(moves[..n - 1]).current) ==>
      GuardedPlay(moves[..n]).current in {GuardedPlay(moves[..n - 1]).current, None}
    decreases |moves|
  {
    if moves != [] {
      var m := |moves| - 1;
      GuardedPlayOneRoom(moves[..m]);
      assert moves[..m][..m] == moves[..m];
      GuardedStep(GuardedPlay(moves[..m]), moves[m]);
      forall n | 0 < n <= |moves| && Truthy(GuardedPlay(moves[..n - 1]).current)
        ensures GuardedPlay(moves[..n]).current in {GuardedPlay(moves[..n - 1]).current, None}
      {
        if n < |moves| {
          assert moves[..n] == moves[..m][..n];
          assert moves[..n - 1] == moves[..m][..n - 1];
        } else {
          assert moves[..n] == moves;
          assert moves[..n - 1] == moves[..m];
        }
      }
    }
  }

  // ---- Traces of handler calls ----------------------------------------------------

  /** One handler call together with the server's verdict on it. */
  datatype Step = CheckIn(room: RoomId, ok: bool) | CheckOut(room: RoomId, ok: bool)

  function Next(current: Option<RoomId>, step: Step): Option<RoomId>
  {
    match step
    case CheckIn(room, ok) => CheckInNext(current, room, ok)
    case CheckOut(room, ok) => CheckOutNext(current, room, ok)
  }

  /** The record after the steps, the last step applied last. */
  function Run(current: Option<RoomId>, steps: seq<Step>): Option<RoomId>
    decreases |steps|
  {
    if steps == [] then current else Next(Run(current, steps[..|steps| - 1]), steps[|steps| - 1])
  }

  /**
   * Starting from no room, the page only ever records a room that some
   * successful check-in named and the guard admitted at that point.
   */
  lemma {:induction false} RunRecordsAdmittedRoom(steps: seq<Step>)
    ensures Run(None, steps).Some? ==>
      exists i :: 0 <= i < |steps| && steps[i] == CheckIn(Run(None, steps).value, true)
                  && CheckInAdmitted(Run(None, steps[..i]), Run(None, steps).value)
    decreases |steps|
  {
    if steps != [] {
      var n := |steps| - 1;
      var prefix := steps[..n];
      var before := Run(None, prefix);
      var after := Run(None, steps);
      assert after == Next(before, steps[n]);
      if after.Some? {
        if after == before {
          RunRecordsAdmittedRoom(prefix);
          var i :| 0 <= i < |prefix| && prefix[i] == CheckIn(before.value, true)
                   && CheckInAdmitted(Run(None, prefix[..i]), before.value);
          assert prefix[..i] == steps[..i];
          assert steps[i] == prefix[i];
        } else {
          assert steps[n] == CheckIn(after.value, true) && CheckInAdmitted(before, after.value);
          assert steps[..n] == prefix;
        }
      }
    }
  }

  /**
   * One room at a time: once recorded in a (truthy) room, the record stays on
   * that room through any steps that contain no successful check-out of it.
   */
  lemma {:induction false} StaysUntilCheckedOut(room: RoomId, steps: seq<Step>)
    requires room != 0
    requires forall i :: 0 <= i < |steps| ==> steps[i] != CheckOut(room, true)
    ensures Run(Some(room), steps) == Some(room)
    decreases |steps|
  {
    if steps != [] {
      var n := |steps| - 1;
      StaysUntilCheckedOut(room, steps[..n]);
    }
  }

  // ---- Check-in button --------------------------------------------------------------

  datatype CheckInButton = CurrentlyHere | Blocked | Enabled

  /** The check-in button of a room's row: only the Enabled one calls the check-in handler. */
  function ButtonFor(current: Option<RoomId>, room: RoomId): CheckInButton
  {
    if current == Some(room) then CurrentlyHere
    else if Truthy(current) then Blocked
    else Enabled
  }

  /** The button is enabled exactly when the handler's guard would admit a check-in to another room than the recorded one. */
  lemma ButtonMatchesGuard(current: Option<RoomId>, room: RoomId)
    ensures ButtonFor(current, room) == Enabled <==> CheckInAdmitted(current, room) && current != Some(room)
  {
  }

  // ---- Derived figures -----------------------------------------------------------------

  /** A room row as the server lists it. */
  datatype RoomView = RoomView(roomId: RoomId, building: string, roomName: string,
                               capacity: int, currentOccupancy: int, availableSeats: int)

  /** The server's answer; a list the answer lacks is None. */
  datatype Listing = Listing(inProgress: Option<seq<RoomView>>, free: Option<seq<RoomView>>)

  /** Length of a list that may be missing; a missing list counts as 0. */
  function ListLength(l: Option<seq<RoomView>>): nat
  {
    if l.Some? then |l.value| else 0
  }

  function TotalRooms(data: Listing): nat
  {
    ListLength(data.free) + ListLength(data.inProgress)
  }

  /** Free rooms with someone in them, in their original order. */
  function Occupied(free: seq<RoomView>): (r: seq<RoomView>)
    ensures |r| <= |free|
    decreases |free|
  {
    if free == [] then []
    else (if free[0].currentOccupancy > 0 then [free[0]] else []) + Occupied(free[1..])
  }

  /** A row is in the occupied view exactly when it is a free room with occupancy above 0. */
  lemma {:induction false} OccupiedMembers(free: seq<RoomView>, v: RoomView)
    ensures v in Occupied(free) <==> v in free && v.currentOccupancy > 0
    decreases |free|
  {
    if free != [] {
      OccupiedMembers(free[1..], v);
      assert free == [free[0]] + free[1..];
    }
  }

  /** The filter keeps order: filtering a concatenation concatenates the filtered parts. */
  lemma {:induction false} OccupiedConcat(a: seq<RoomView>, b: seq<RoomView>)
    ensures Occupied(a + b) == Occupied(a) + Occupied(b)
    decreases |a|
  {
    if a == [] {
      assert a + b == b;
    } else {
      assert (a + b)[0] == a[0];
      assert (a + b)[1..] == a[1..] + b;
      OccupiedConcat(a[1..], b);
    }
  }

  /** Every occupied row keeps its multiplicity from the free list; no other row survives. */
  lemma {:induction false} OccupiedMultiplicity(free: seq<RoomView>, v: RoomView)
    ensures multiset(Occupied(free))[v] == if v.currentOccupancy > 0 then multiset(free)[v] else 0
    decreases |free|
  {
    if free != [] {
      OccupiedMultiplicity(free[1..], v);
      assert free == [free[0]] + free[1..];
    }
  }

  /** The occupied section's rows: none when the free list is missing. */
  function OccupiedRows(data: Listing): seq<RoomView>
  {
    if data.free.Some? then Occupied(data.free.value) else []
  }

  /** The "No occupied rooms" message: only for a present free list with no occupied room. */
  predicate ShowsNoOccupied(data: Listing)
  {
    data.free.Some? && Occupied(data.free.value) == []
  }

  /**
   * "No occupied rooms" shows exactly when the free list exists and none of its
   * rooms has occupancy above 0; a missing free list shows neither the message nor any row.
   */
  lemma NoOccupiedMessage(data: Listing)
    ensures data.free.None? ==> !ShowsNoOccupied(data) && OccupiedRows(data) == []
    ensures data.free.Some? ==> (ShowsNoOccupied(data) <==> forall i :: 0 <= i < |data.free.value| ==> data.free.value[i].currentOccupancy <= 0)
  {
    if data.free.Some? {
      var free := data.free.value;
      if Occupied(free) != [] {
        var v := Occupied(free)[0];
        OccupiedMembers(free, v);
        var i :| 0 <= i < |free| && free[i] == v;
      } else {
        forall i | 0 <= i < |free| ensures free[i].currentOccupancy <= 0 {
          OccupiedMembers(free, free[i]);
        }
      }
    }
  }

  /**
   * The summary figure bounds every section: the occupied section never lists
   * more rooms than Available, and Available and In Progress each at most
   * Total; Total is 0 exactly when both lists are empty or missing.
   */
  lemma TotalBoundsSections(data: Listing)
    ensures |OccupiedRows(data)| <= ListLength(data.free) <= TotalRooms(data)
    ensures ListLength(data.inProgress) <= TotalRooms(data)
    ensures TotalRooms(data) == 0 <==>
              (data.free.None? || data.free.value == []) && (data.inProgress.None? || data.inProgress.value == [])
  {
  }
}
