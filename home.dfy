/**
 * The floor-map page: a live head count per room, kept in memory and changed by
 * the Join, Leave and quick-set buttons of a room's popover; a five-level
 * category derived from the count; the tooltip text; the static floor table.
 */
module Home {
  import opened Optional

  // ---- Capacity and thresholds ---------------------------------------------

  /** Ceiling of the live count: Join never goes above it, and it is the "full" threshold. */
  const MaxCap: int := 15

  datatype Category = Empty | Less | Moderate | Busy | Full

  /** Classify a count; the first lower bound it reaches wins. */
  function CategoryFromCount(c: int): Category
  {
    if c >= MaxCap then Full
    else if c >= 11 then Busy
    else if c >= 6 then Moderate
    else if c >= 1 then Less
    else Empty
  }

  /** Position of a category on the busy scale, Empty lowest. */
  function Rank(k: Category): nat
  {
    match k
    case Empty => 0
    case Less => 1
    case Moderate => 2
    case Busy => 3
    case Full => 4
  }

  /** The closed range of counts each category stands for; Empty also takes every negative count, Full every count above the cap. */
  predicate InBand(k: Category, c: int)
  {
    match k
    case Empty => c <= 0
    case Less => 1 <= c <= 5
    case Moderate => 6 <= c <= 10
    case Busy => 11 <= c <= 14
    case Full => MaxCap <= c
  }

  /** The classifier is total and picks exactly the category whose band holds the count. */
  lemma CategoryBands(c: int, k: Category)
    ensures CategoryFromCount(c) == k <==> InBand(k, c)
  {
  }

  /** A larger count never shows a less busy category. */
  lemma CategoryMonotone(a: int, b: int)
    requires a <= b
    ensures Rank(CategoryFromCount(a)) <= Rank(CategoryFromCount(b))
  {
  }

  /** Text shown for each category. */
  function Label(k: Category): (s: string)
    ensures |s| > 0
  {
    match k
    case Empty => "Empty"
    case Less => "Less busy"
    case Moderate => "Moderate"
    case Busy => "Busy"
    case Full => "Full"
  }

  /** Different categories are shown with different texts. */
  lemma LabelInjective(k1: Category, k2: Category)
    requires Label(k1) == Label(k2)
    ensures k1 == k2
  {
  }

  /** The count a quick-set button writes for its category. */
  function Rep(k: Category): int
  {
    match k
    case Empty => 0
    case Less => 1
    case Moderate => 6
    case Busy => 11
    case Full => MaxCap
  }

  /**
   * Quick-set round trip: the written count is classified back as the chosen
   * category, stays within [0, MaxCap], and is the smallest non-negative count
   * of that category.
   */
  lemma RepRoundTrip(k: Category)
    ensures CategoryFromCount(Rep(k)) == k
    ensures 0 <= Rep(k) <= MaxCap
    ensures forall c :: 0 <= c && CategoryFromCount(c) == k ==> Rep(k) <= c
  {
  }

  // ---- The counts map --------------------------------------------------------

  /** A count as read by the page: a room never touched reads as 0. */
  function Lookup(counts: map<string, int>, room: string): int
  {
    if room in counts then counts[room] else 0
  }

  /** A button press in a room's popover. */
  datatype Action = Join(room: string) | Leave(room: string) | QuickSet(room: string, cat: Category)

  /** The count an action writes, given the count it reads. */
  function NewCount(c: int, a: Action): int
  {
    match a
    case Join(_) => if MaxCap < c + 1 then MaxCap else c + 1
    case Leave(_) => if c - 1 < 0 then 0 else c - 1
    case QuickSet(_, k) => Rep(k)
  }

  /** Join adds one up to the cap; at the cap it changes nothing. */
  lemma JoinStep(c: int)
    requires 0 <= c <= MaxCap
    ensures NewCount(c, Join("")) == (if c == MaxCap then c else c + 1)
    ensures 0 <= NewCount(c, Join("")) <= MaxCap
  {
  }

  /** Leave takes one away down to zero; at zero it changes nothing. */
  lemma LeaveStep(c: int)
    requires 0 <= c <= MaxCap
    ensures NewCount(c, Leave("")) == (if c == 0 then c else c - 1)
    ensures 0 <= NewCount(c, Leave("")) <= MaxCap
  {
  }

  /** Whatever it reads, an action writes a count within [0, MaxCap] (Join and Leave only once the read count is). */
  lemma NewCountBounded(c: int, a: Action)
    requires 0 <= c <= MaxCap || a.QuickSet?
    ensures 0 <= NewCount(c, a) <= MaxCap
  {
  }

  /** Writes the new count under the action's room, and under no other key. */
  function Apply(counts: map<string, int>, a: Action): (r: map<string, int>)
    ensures r.Keys == counts.Keys + {a.room}
    ensures Lookup(r, a.room) == NewCount(Lookup(counts, a.room), a)
    ensures forall room :: room != a.room ==> Lookup(r, room) == Lookup(counts, room)
  {
    counts[a.room := NewCount(Lookup(counts, a.room), a)]
  }

  /** Every stored count lies within [0, MaxCap]. */
  ghost predicate Bounded(counts: map<string, int>)
  {
    forall room :: room in counts ==> 0 <= counts[room] <= MaxCap
  }

  lemma ApplyKeepsBounded(counts: map<string, int>, a: Action)
    requires Bounded(counts)
    ensures Bounded(Apply(counts, a))
  {
  }

  /** The actions applied one after another, first to last. */
  function Run(counts: map<string, int>, actions: seq<Action>): map<string, int>
    decreases |actions|
  {
    if actions == [] then counts else Run(Apply(counts, actions[0]), actions[1..])
  }

  /** Any sequence of button presses keeps every count within [0, MaxCap]. */
  lemma {:induction false} RunKeepsBounded(counts: map<string, int>, actions: seq<Action>)
    requires Bounded(counts)
    ensures Bounded(Run(counts, actions))
    decreases |actions|
  {
    if actions != [] {
      ApplyKeepsBounded(counts, actions[0]);
      RunKeepsBounded(Apply(counts, actions[0]), actions[1..]);
    }
  }

  /** Starting from the page's empty map, every reachable count lies within [0, MaxCap]. */
  lemma RunFromEmptyBounded(actions: seq<Action>, room: string)
    ensures 0 <= Lookup(Run(map[], actions), room) <= MaxCap
  {
    RunKeepsBounded(map[], actions);
  }

  /** A room that no action names keeps the count it had. */
  lemma {:induction false} RunLeavesOtherRooms(counts: map<string, int>, actions: seq<Action>, room: string)
    requires forall i :: 0 <= i < |actions| ==> actions[i].room != room
    ensures Lookup(Run(counts, actions), room) == Lookup(counts, room)
    decreases |actions|
  {
    if actions != [] {
      RunLeavesOtherRooms(Apply(counts, actions[0]), actions[1..], room);
    }
  }

  // ---- Button enabling ----------------------------------------------------------

  predicate JoinDisabled(c: int) { c >= MaxCap }

  predicate LeaveDisabled(c: int) { c <= 0 }

  /** Within [0, MaxCap], a button is disabled exactly when pressing it would change nothing. */
  lemma DisabledExactlyWhenNoOp(c: int, room: string)
    requires 0 <= c <= MaxCap
    ensures JoinDisabled(c) <==> NewCount(c, Join(room)) == c
    ensures LeaveDisabled(c) <==> NewCount(c, Leave(room)) == c
  {
  }

  /** The page's in-memory count table, updated in place by the popover handlers. */
  class RoomCounts {
    var counts: map<string, int>

    ghost predicate Valid()
      reads this
    {
      Bounded(counts)
    }

    /** The table starts empty: every room reads as 0. */
    constructor ()
      ensures Valid()
      ensures counts == map[]
    {
      counts := map[];
    }

    function CountOf(room: string): (c: int)
      reads this
      requires Valid()
      ensures 0 <= c <= MaxCap
    {
      Lookup(counts, room)
    }

    /** The Join handler. */
    method Join(room: string)
      requires Valid()
      modifies this
      ensures Valid()
      ensures counts == Apply(old(counts), Action.Join(room))
    {
      var c := CountOf(room) + 1;
      counts := counts[room := if MaxCap < c then MaxCap else c];
      ApplyKeepsBounded(old(counts), Action.Join(room));
    }

    /** The Leave handler. */
    method Leave(room: string)
      requires Valid()
      modifies this
      ensures Valid()
      ensures counts == Apply(old(counts), Action.Leave(room))
    {
      var c := CountOf(room) - 1;
      counts := counts[room := if c < 0 then 0 else c];
      ApplyKeepsBounded(old(counts), Action.Leave(room));
    }

    /** A quick-set button writes its category's representative count. */
    method QuickSet(room: string, k: Category)
      requires Valid()
      modifies this
      ensures Valid()
      ensures counts == Apply(old(counts), Action.QuickSet(room, k))
    {
      counts := counts[room := Rep(k)];
      ApplyKeepsBounded(old(counts), Action.QuickSet(room, k));
    }

    /**
     * The popover's button refresh: the shown count, and which buttons are
     * disabled — each exactly when pressing it would leave the count as it is.
     */
    method RefreshButtons(room: string) returns (joinDisabled: bool, leaveDisabled: bool, shown: int)
      requires Valid()
      ensures shown == Lookup(counts, room)
      ensures 0 <= shown <= MaxCap
      ensures joinDisabled <==> Lookup(Apply(counts, Action.Join(room)), room) == shown
      ensures leaveDisabled <==> Lookup(Apply(counts, Action.Leave(room)), room) == shown
    {
      var c := CountOf(room);
      joinDisabled := JoinDisabled(c);
      leaveDisabled := LeaveDisabled(c);
      shown := c;
    }

    /** The status class applied to a room's map cell; Full exactly at the cap. */
    function StatusClass(room: string): (k: Category)
      reads this
      requires Valid()
      ensures k == Full <==> CountOf(room) == MaxCap
      ensures k == Empty <==> CountOf(room) == 0
    {
      CategoryFromCount(CountOf(room))
    }

    /**
     * The tooltip of a room cell of floor f, read from the table: it shows
     * "Capacity 40" exactly for a large room, and its count reads back as the
     * room's count, 0 for a room never touched.
     */
    function Tooltip(f: Floor, room: string): (t: string)
      reads this
      requires Valid()
      ensures var head := "Room " + room + " - Capacity ";
        |head| + 2 <= |t| && (t[|head|..|head| + 2] == "40" <==> room in f.large)
      ensures ToolTextCount(t) == Some(CountOf(room))
      ensures room !in counts ==> ToolTextCount(t) == Some(0)
    {
      var t := ToolText(room, CapVis(f, room), CountOf(room));
      TooltipShape(room, CapVis(f, room), CountOf(room));
      ToolTextCountRoundTrip(room, CapVis(f, room), CountOf(room));
      t
    }
  }

  // ---- Tooltip text ---------------------------------------------------------------

  predicate IsDigit(ch: char) { '0' <= ch <= '9' }

  predicate AllDigits(s: string) { forall i :: 0 <= i < |s| ==> IsDigit(s[i]) }

  function DigitChar(d: nat): char
    requires d < 10
  {
    (d + '0' as int) as char
  }

  function DigitValue(ch: char): nat
    requires IsDigit(ch)
  {
    ch as int - '0' as int
  }

  /** Decimal digits of a natural number, most significant first, without leading zeros. */
  function NatDigits(n: nat): (s: string)
    ensures |s| > 0 && AllDigits(s)
  {
    if n < 10 then [DigitChar(n)] else NatDigits(n / 10) + [DigitChar(n % 10)]
  }

  /** How an integer is written into a template string. */
  function Decimal(n: int): (s: string)
    ensures |s| > 0
    ensures s[0] == '-' <==> n < 0
  {
    if n < 0 then "-" + NatDigits(-n) else NatDigits(n)
  }

  /** The number a run of decimal digits denotes (reference reading of NatDigits). */
  function DigitsValue(s: string): nat
    requires AllDigits(s)
  {
    if s == [] then 0 else 10 * DigitsValue(s[..|s| - 1]) + DigitValue(s[|s| - 1])
  }

  /** Reading back the written digits gives the number. */
  lemma {:induction false} NatDigitsRoundTrip(n: nat)
    ensures DigitsValue(NatDigits(n)) == n
  {
    if n >= 10 {
      var s := NatDigits(n);
      assert s[..|s| - 1] == NatDigits(n / 10);
      NatDigitsRoundTrip(n / 10);
    }
  }

  /** The longest suffix of decimal digits. */
  function TrailingDigits(s: string): (d: string)
    ensures AllDigits(d)
  {
    if |s| > 0 && IsDigit(s[|s| - 1]) then TrailingDigits(s[..|s| - 1]) + [s[|s| - 1]] else []
  }

  lemma {:induction false} TrailingDigitsAfter(x: string, d: string)
    requires |x| > 0 && !IsDigit(x[|x| - 1])
    requires AllDigits(d)
    ensures TrailingDigits(x + d) == d
  {
    if d != [] {
      var d' := d[..|d| - 1];
      assert (x + d)[..|x + d| - 1] == x + d';
      TrailingDigitsAfter(x, d');
    } else {
      assert x + d == x;
    }
  }

  /** Tooltip of a room cell: its id, visual capacity, category label and live count against the cap. */
  function ToolText(room: string, capVis: int, c: int): (t: string)
    ensures |"Room " + room| <= |t| && t[..|"Room " + room|] == "Room " + room
    ensures |t| >= 4 && t[|t| - 4..] == "/15)"
  {
    ConcatEnds("Room " + room, " - Capacity " + Decimal(capVis), Tail(c));
    Front(room, capVis) + Tail(c)
  }

  /** The tooltip up to the visual capacity. */
  function Front(room: string, capVis: int): string
  {
    "Room " + room + " - Capacity " + Decimal(capVis)
  }

  /** The category label between separators, ending just before the live count. */
  function Mid(c: int): (m: string)
    ensures |m| > 0 && m[|m| - 1] == '('
  {
    " - " + Label(CategoryFromCount(c)) + " ("
  }

  /** The text after the live count: the cap and the closing parenthesis. */
  function CountSuffix(): (z: string)
    ensures z == "/15)"
  {
    assert Decimal(MaxCap) == "15";
    "/" + Decimal(MaxCap) + ")"
  }

  /** The part of a tooltip after the visual capacity: category label and live count against the cap. */
  function Tail(c: int): (t: string)
    ensures |t| >= 4 && t[|t| - 4..] == "/15)"
  {
    Mid(c) + Decimal(c) + CountSuffix()
  }

  /** A prefix survives concatenation, and so do the last four characters of the last part. */
  lemma ConcatEnds(a: string, b: string, c: string)
    requires |c| >= 4
    ensures (a + b + c)[..|a|] == a
    ensures (a + b + c)[|a + b + c| - 4..] == c[|c| - 4..]
  {
  }

  /** Reads the live count back off the end of a tooltip. */
  function ToolTextCount(t: string): Option<nat>
  {
    if |t| < 4 || t[|t| - 4..] != "/15)" then None
    else
      var digits := TrailingDigits(t[..|t| - 4]);
      if digits == [] then None else Some(DigitsValue(digits))
  }

  /** The tooltip reports the live count faithfully: it can be read back from the text. */
  lemma ToolTextCountRoundTrip(room: string, capVis: int, c: nat)
    ensures ToolTextCount(ToolText(room, capVis, c)) == Some(c)
  {
    var front, mid, digits := Front(room, capVis), Mid(c), NatDigits(c);
    assert Decimal(c) == digits;
    Regroup(front, mid, digits, CountSuffix());
    CountAfterParen(front + mid, c);
  }

  lemma Regroup(a: string, b: string, d: string, z: string)
    ensures a + (b + d + z) == (a + b) + d + z
  {
  }

  /** Any text ending in "(", the digits of c and "/15)" reads back as c. */
  lemma CountAfterParen(head: string, c: nat)
    requires |head| > 0 && head[|head| - 1] == '('
    ensures ToolTextCount(head + NatDigits(c) + "/15)") == Some(c)
  {
    var t := head + NatDigits(c) + "/15)";
    DropSuffix(head, NatDigits(c), "/15)");
    assert t[|t| - 4..] == "/15)";
    TrailingDigitsAfter(head, NatDigits(c));
    NatDigitsRoundTrip(c);
  }

  lemma DropSuffix(a: string, b: string, z: string)
    ensures (a + b + z)[..|a + b + z| - |z|] == a + b
  {
  }

  /** The visual capacity sits right after "Capacity " in the tooltip. */
  lemma TooltipShape(room: string, capVis: int, c: int)
    requires capVis == 20 || capVis == 40
    ensures var head := "Room " + room + " - Capacity "; var t := ToolText(room, capVis, c);
      |head| + 2 <= |t| && t[|head|..|head| + 2] == (if capVis == 40 then "40" else "20")
  {
    var head := "Room " + room + " - Capacity ";
    assert Decimal(capVis) == if capVis == 40 then "40" else "20";
    MiddleOf(head, Decimal(capVis), Tail(c));
  }

  lemma MiddleOf(a: string, b: string, c: string)
    ensures (a + b + c)[|a|..|a| + |b|] == b
  {
  }

  // ---- Floor table ------------------------------------------------------------------

  /** A floor of the map: its heading, its rooms in display order, and which of them are large. */
  datatype Floor = Floor(title: string, rooms: seq<string>, large: set<string>)

  const Floor2: Floor := Floor("2nd Floor Map",
    ["201", "202", "203", "204", "205", "206", "207", "208", "209", "210", "211", "212"],
    {"212"})

  const Floor3: Floor := Floor("3rd Floor Map",
    ["301", "302", "303", "304", "305", "306", "307", "308", "309", "310", "311", "312", "314"],
    {"301", "303", "306", "309", "312", "314"})

  const Floor4: Floor := Floor("4th Floor Map",
    ["401", "402", "403", "404", "405", "406", "407", "408", "409", "410", "411"],
    {"401", "403", "406", "409"})

  const Floor5: Floor := Floor("5th Floor Map",
    ["501A", "501B", "502", "503", "504", "505", "506", "507", "508", "509", "509U"],
    {"502", "505", "506", "508", "509"})

  const Floor6: Floor := Floor("6th Floor Map",
    ["601", "602", "603", "604", "605", "606", "607", "608", "609", "611"],
    {"604", "608", "611"})

  /** The floor table, keyed by floor number. */
  function Floors(): map<int, Floor>
  {
    map[2 := Floor2, 3 := Floor3, 4 := Floor4, 5 := Floor5, 6 := Floor6]
  }

  /** Visual capacity shown in a cell's tooltip: 40 for a large room, 20 otherwise. */
  function CapVis(f: Floor, room: string): int
  {
    if room in f.large then 40 else 20
  }

  /** Every large room of the floor is one of its rooms. */
  predicate LargeAreRooms(f: Floor)
  {
    forall room :: room in f.large ==> room in f.rooms
  }

  /** Every room id in the list is non-empty and starts with the digit d. */
  predicate StartWithDigit(rooms: seq<string>, d: int)
  {
    forall i :: 0 <= i < |rooms| ==> |rooms[i]| > 0 && rooms[i][0] as int == '0' as int + d
  }

  lemma Floor2Large()
    ensures LargeAreRooms(Floor2)
  {
  }

  lemma Floor2Digits()
    ensures StartWithDigit(Floor2.rooms, 2)
  {
  }

  lemma Floor3Large()
    ensures LargeAreRooms(Floor3)
  {
  }

  lemma Floor3Digits()
    ensures StartWithDigit(Floor3.rooms, 3)
  {
  }

  lemma Floor4Large()
    ensures LargeAreRooms(Floor4)
  {
  }

  lemma Floor4Digits()
    ensures StartWithDigit(Floor4.rooms, 4)
  {
  }

  lemma Floor5Large()
    ensures LargeAreRooms(Floor5)
  {
  }

  lemma Floor5Digits()
    ensures StartWithDigit(Floor5.rooms, 5)
  {
  }

  lemma Floor6Large()
    ensures LargeAreRooms(Floor6)
  {
  }

  lemma Floor6Digits()
    ensures StartWithDigit(Floor6.rooms, 6)
  {
  }

  /**
   * The floor table is consistent: each floor's large rooms are among its
   * rooms, and each room id starts with its floor's digit, so no room id
   * appears on two floors.
   */
  lemma FloorsConsistent()
    ensures forall k :: k in Floors() ==> LargeAreRooms(Floors()[k]) && StartWithDigit(Floors()[k].rooms, k)
    ensures forall k1, k2, i, j ::
              k1 in Floors() && k2 in Floors() && k1 != k2 &&
              0 <= i < |Floors()[k1].rooms| && 0 <= j < |Floors()[k2].rooms|
              ==> Floors()[k1].rooms[i] != Floors()[k2].rooms[j]
  {
    Floor2Large();
    Floor2Digits();
    Floor3Large();
    Floor3Digits();
    Floor4Large();
    Floor4Digits();
    Floor5Large();
    Floor5Digits();
    Floor6Large();
    Floor6Digits();
    FiveFloors(Floors(), Floor2, Floor3, Floor4, Floor5, Floor6);
    DigitPrefixesDisjoint(Floors());
  }

  /** A table of floors 2 to 6 is well formed when each of its five floors is. */
  lemma FiveFloors(floors: map<int, Floor>, f2: Floor, f3: Floor, f4: Floor, f5: Floor, f6: Floor)
    requires floors == map[2 := f2, 3 := f3, 4 := f4, 5 := f5, 6 := f6]
    requires LargeAreRooms(f2) && StartWithDigit(f2.rooms, 2)
    requires LargeAreRooms(f3) && StartWithDigit(f3.rooms, 3)
    requires LargeAreRooms(f4) && StartWithDigit(f4.rooms, 4)
    requires LargeAreRooms(f5) && StartWithDigit(f5.rooms, 5)
    requires LargeAreRooms(f6) && StartWithDigit(f6.rooms, 6)
    ensures forall k :: k in floors ==> LargeAreRooms(floors[k]) && StartWithDigit(floors[k].rooms, k)
  {
    forall k | k in floors
      ensures LargeAreRooms(floors[k]) && StartWithDigit(floors[k].rooms, k)
    {
      assert k == 2 || k == 3 || k == 4 || k == 5 || k == 6;
    }
  }

  /** Floors whose room ids start with their own floor digit share no room id. */
  lemma DigitPrefixesDisjoint(floors: map<int, Floor>)
    requires forall k :: k in floors ==> StartWithDigit(floors[k].rooms, k)
    ensures forall k1, k2, i, j ::
              k1 in floors && k2 in floors && k1 != k2 &&
              0 <= i < |floors[k1].rooms| && 0 <= j < |floors[k2].rooms|
              ==> floors[k1].rooms[i] != floors[k2].rooms[j]
  {
    forall k1, k2, i, j |
      k1 in floors && k2 in floors && k1 != k2 &&
      0 <= i < |floors[k1].rooms| && 0 <= j < |floors[k2].rooms|
      ensures floors[k1].rooms[i] != floors[k2].rooms[j]
    {
      assert floors[k1].rooms[i][0] as int == '0' as int + k1;
      assert floors[k2].rooms[j][0] as int == '0' as int + k2;
    }
  }
}
