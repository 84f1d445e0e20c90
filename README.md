# Room occupancy front end — Dafny model

This project models the client-side logic of a room-occupancy tracker's web front end.

- **The floor-map page** (`frontend/src/Components/Home/home.js`). This page keeps a live head count per room in an in-memory map. The map is changed by a room popover's Join, Leave and quick-set buttons. Join is capped at `MAX_CAP` = 15 and Leave is floored at 0. Each count is shown as one of five categories (Empty, Less busy, Moderate, Busy, Full). Each count also appears in a cell tooltip. The popover's Join and Leave buttons are disabled by a rule over the count. The page draws its cells from a static table of floors, their rooms and their large rooms.
- **The rooms page** (`frontend/src/Components/Rooms/Rooms.jsx`). This page is meant to keep a student checked into at most one room at a time; overlapping clicks defeat this (see Findings). It records that room in `currentStudentRoom`, and its check-in and check-out handlers send occupancy events to the server and update that record. The page also shows a total-rooms figure and an "occupied" view taken from the server's room lists.

Files:
- `optional.dfy` defines `Option` (JavaScript's `null`/`undefined`).
- `home.dfy` (module `Home`) covers the floor-map page.
- `rooms.dfy` (module `Rooms`) covers the rooms page.

Modelling choices:
- `Home.RoomCounts` is a class whose `counts: map<string, int>` field is reassigned by the `Join`, `Leave` and `QuickSet` methods. Each method's `ensures` ties the new map to the pure function `Home.Apply`. The lemmas about `Apply` and `Run` carry the invariants: every count stays in [0, 15], and only the pressed room's count changes.
- The rooms page's handlers are `async`: the guard reads the record at click time, and the record is written only when the server's answer arrives. The page stays clickable in between. `Rooms.StudentSession` therefore holds the record `currentRoom` and the requests still in flight, `inFlight`. `HandleCheckIn` and `HandleCheckOut` are the clicks and send the event body, `+1` or `-1` with source `student`; only the check-in click applies the one-room guard. `HandleResponse` applies the answer to any one in-flight request, in any order. The server's verdict (`response.ok`, with a thrown request folded into `false`) is a boolean parameter. Each method's `ensures` ties the new page state to the function `Rooms.AfterMove`.
- The one-step functions `CheckInNext` and `CheckOutNext` and the trace function `Rooms.Run` describe calls whose answer arrives before the next click. `Rooms.ClickThenAnswer` shows that a click followed at once by its answer is exactly that step. The class follows the code as written. The corrected handlers of the Findings section are the separate function `Rooms.GuardedAfterMove`.
- Room ids on the floor map are strings (`"501A"`). On the rooms page they are the server's numeric ids. The rooms page's guard `currentStudentRoom && …` tests JavaScript truthiness, so the model's `Rooms.Truthy` treats both `null` and the id `0` as "not in a room". A student recorded in room 0 is therefore not blocked from checking in elsewhere. `Rooms.StaysUntilCheckedOut` assumes a non-zero id for this reason.
- The server-side occupancy ledger that these pages call (capacity checks, schedule conflicts) is not part of this model. The page-side cap is the constant 15, and the rooms page only forwards the server's verdict.

## Model

| member | source | states |
|---|---|---|
| Home.CategoryBands | frontend/src/Components/Home/home.js:95-101 | The classifier picks a category exactly when the count is in that category's band: Full at 15 and above, Busy 11..14, Moderate 6..10, Less 1..5, Empty at 0 and below. |
| Home.CategoryMonotone | frontend/src/Components/Home/home.js:95-101 | A larger count never gives a less busy category. |
| Home.LabelInjective | frontend/src/Components/Home/home.js:102-108 | Different categories have different display labels. |
| Home.RepRoundTrip | frontend/src/Components/Home/home.js:302 | Every quick-set value is classified back as its own category. It lies in [0, 15] and is the smallest non-negative count of that category. |
| Home.JoinStep | frontend/src/Components/Home/home.js:292 | On a count in [0, 15], Join adds one; at 15 it changes nothing. The result stays in [0, 15]. |
| Home.LeaveStep | frontend/src/Components/Home/home.js:298 | On a count in [0, 15], Leave takes one away; at 0 it changes nothing. The result stays in [0, 15]. |
| Home.NewCountBounded | frontend/src/Components/Home/home.js:290-309 | Each popover action writes a count in [0, 15], for Join and Leave once the count they read is in range. |
| Home.Apply | frontend/src/Components/Home/home.js:290-309 | An action writes the new count under its own room only. Every other room reads as before, and a missing key reads as 0. |
| Home.ApplyKeepsBounded | frontend/src/Components/Home/home.js:290-309 | One action keeps every stored count in [0, 15]. |
| Home.RunKeepsBounded | frontend/src/Components/Home/home.js:290-309 | Any sequence of actions keeps every stored count in [0, 15]. |
| Home.RunFromEmptyBounded | frontend/src/Components/Home/home.js:111 | From the page's initial empty map, every room's count is in [0, 15] after any sequence of actions. |
| Home.RunLeavesOtherRooms | frontend/src/Components/Home/home.js:290-309 | A room that no action names keeps its count. |
| Home.DisabledExactlyWhenNoOp | frontend/src/Components/Home/home.js:276-281 | For a count in [0, 15], Join is disabled exactly when Join would not change the count, and likewise for Leave. |
| Home.RoomCounts.constructor | frontend/src/Components/Home/home.js:111 | The count table starts empty. |
| Home.RoomCounts.CountOf | frontend/src/Components/Home/home.js:277 | The count the page reads for a room (a missing key reads as 0) is in [0, 15]. |
| Home.RoomCounts.Join | frontend/src/Components/Home/home.js:290-294 | The Join handler replaces the table with `Apply(old, Join(room))` and keeps every count in [0, 15]. |
| Home.RoomCounts.Leave | frontend/src/Components/Home/home.js:296-300 | The Leave handler replaces the table with `Apply(old, Leave(room))` and keeps every count in [0, 15]. |
| Home.RoomCounts.QuickSet | frontend/src/Components/Home/home.js:302-309 | A quick-set button replaces the table with `Apply(old, QuickSet(room, k))` and keeps every count in [0, 15]. |
| Home.RoomCounts.RefreshButtons | frontend/src/Components/Home/home.js:276-281 | The shown count is the room's count, in [0, 15]. Each button is disabled exactly when pressing it would leave the count unchanged. |
| Home.RoomCounts.StatusClass | frontend/src/Components/Home/home.js:122-126 | A cell's status class is Full exactly at 15 and Empty exactly at 0. |
| Home.NatDigitsRoundTrip | frontend/src/Components/Home/home.js:119 | Reading back the decimal digits written for a count gives the count. |
| Home.ToolText | frontend/src/Components/Home/home.js:114-120 | The tooltip starts with `Room <id>` and ends with `/15)`. |
| Home.RoomCounts.Tooltip | frontend/src/Components/Home/home.js:114-120 | A cell's tooltip, read from the table, shows `Capacity 40` exactly for a large room (home.js:146-147). Its count reads back as the room's count, and as 0 for a room never touched. |
| Home.ToolTextCountRoundTrip | frontend/src/Components/Home/home.js:114-120 | The live count can be read back exactly from the end of the tooltip. |
| Home.FloorsConsistent | frontend/src/Components/Home/home.js:2-90 | Each floor's large rooms are among that floor's rooms. Every room id starts with its floor's digit. No room id appears on two floors. |
| Rooms.CheckInRefusal | frontend/src/Components/Rooms/Rooms.jsx:31-36 | A null record or room id 0 never blocks a check-in. A refused check-in changes nothing. A check-in to the recorded room itself is never refused. |
| Rooms.CheckInOutcome | frontend/src/Components/Rooms/Rooms.jsx:38-56 | An admitted check-in records the room on success and changes nothing on failure. |
| Rooms.CheckOutOutcome | frontend/src/Components/Rooms/Rooms.jsx:59-82 | A check-out clears the record only on success for the recorded room. Otherwise the record is unchanged. |
| Rooms.StudentSession.constructor | frontend/src/Components/Rooms/Rooms.jsx:10 | The session starts with no recorded room and nothing in flight. |
| Rooms.StudentSession.HandleCheckIn | frontend/src/Components/Rooms/Rooms.jsx:31-44 | A Check In click sends `+1` from `student` if the guard admits it against the current record, and otherwise sends nothing. An admitted click adds an in-flight check-in and leaves the record alone. |
| Rooms.StudentSession.HandleCheckOut | frontend/src/Components/Rooms/Rooms.jsx:59-66 | A Check Out click always sends `-1` from `student`. It adds an in-flight check-out that remembers whether the record named the room at click time, and leaves the record alone. |
| Rooms.StudentSession.HandleResponse | frontend/src/Components/Rooms/Rooms.jsx:45-56 | An answer removes its request from the in-flight list. A successful check-in answer records its room. A successful check-out answer clears the record only if the record named the room at click time. A failed answer leaves the record unchanged. |
| Rooms.ClickThenAnswer | frontend/src/Components/Rooms/Rooms.jsx:31-82 | A click answered before anything else happens gives exactly the one-step results `CheckInNext` and `CheckOutNext`, and a refused click changes nothing. |
| Rooms.OverlappingCheckInsSwitchRooms | frontend/src/Components/Rooms/Rooms.jsx:33-46 | As written: two check-ins clicked before either answer both pass the guard. The record then moves from room 1 to room 2 with no check-out. |
| Rooms.PlayRecordsAdmittedRoom | frontend/src/Components/Rooms/Rooms.jsx:31-82 | As written, for any interleaving of clicks and answers from the initial page: the recorded room and every in-flight check-in were named by a check-in click that the guard admitted at that point. |
| Rooms.StaleCheckOutKeepsRoom | frontend/src/Components/Rooms/Rooms.jsx:67-71 | As written: a check-out clicked while its room's check-in is in flight leaves the record on that room, even though both requests succeed. |
| Rooms.GuardedStep | frontend/src/Components/Rooms/Rooms.jsx:31-82 | Corrected handlers: every move keeps all in-flight check-ins on one room, matching a truthy record. A truthy record only stays or clears. A successful check-out answer never leaves the record on its room. |
| Rooms.GuardedPlayOneRoom | frontend/src/Components/Rooms/Rooms.jsx:31-82 | Corrected handlers, any interleaving from the initial page: the record never moves from one truthy room to another without being cleared first. |
| Rooms.RunRecordsAdmittedRoom | frontend/src/Components/Rooms/Rooms.jsx:31-82 | Over the sequential trace (each answer arrives before the next click), starting from no room: any recorded room was named by a successful check-in that the guard admitted at that point in the trace. |
| Rooms.StaysUntilCheckedOut | frontend/src/Components/Rooms/Rooms.jsx:31-82 | For calls that do not overlap: once in a non-zero room, the record stays on that room until a successful check-out of it. |
| Rooms.ButtonMatchesGuard | frontend/src/Components/Rooms/Rooms.jsx:163-185 | A row's Check In button is enabled exactly when the guard would admit the check-in and the student is not already in that row's room. |
| Rooms.Occupied | frontend/src/Components/Rooms/Rooms.jsx:264 | The occupied view is never longer than the free list. |
| Rooms.OccupiedMembers | frontend/src/Components/Rooms/Rooms.jsx:264 | A row is in the occupied view exactly when it is in the free list and has occupancy above 0. |
| Rooms.OccupiedConcat | frontend/src/Components/Rooms/Rooms.jsx:264 | The filter keeps the free list's order: filtering a concatenation concatenates the filtered parts. |
| Rooms.OccupiedMultiplicity | frontend/src/Components/Rooms/Rooms.jsx:264 | Each occupied row appears as often as it does in the free list, and no other row appears. |
| Rooms.TotalBoundsSections | frontend/src/Components/Rooms/Rooms.jsx:104 | The occupied section never lists more rooms than Available. Available and In Progress are each at most Total. Total is 0 exactly when both lists are empty or missing. |
| Rooms.NoOccupiedMessage | frontend/src/Components/Rooms/Rooms.jsx:247-248 | "No occupied rooms" appears exactly when the free list exists and none of its rooms has occupancy above 0. With no free list the section shows an empty table instead. |

## Findings

| source | as written | input that shows it | evidently intended | confidence | as-written member | corrected member |
|---|---|---|---|---|---|---|
| frontend/src/Components/Rooms/Rooms.jsx:33-46 | The one-room guard reads the record as it was at click time. The record is written only after the server answers. | With no record, click Check In on room 1, then Check In on room 2 before the first answer; both answers are ok. | A student is in one room at a time: the record leaves a room only through a check-out. | medium, not executed | Rooms.OverlappingCheckInsSwitchRooms | Rooms.GuardedPlayOneRoom |
| frontend/src/Components/Rooms/Rooms.jsx:67-71 | A successful check-out clears the record only if the record named the room at click time. | Room 5 is a free room whose occupancy is already above 0, so its row shows both Check In and Check Out. With no record, click Check In on room 5, then Check Out on room 5 before the first answer; both answers are ok. | After a successful check-out of a room, the record no longer names that room. | medium, not executed | Rooms.StaleCheckOutKeepsRoom | Rooms.GuardedStep |

## Left out

- Network requests (`fetch` to `/room` and `/api/rooms/:id/events`), `response.json()` error messages, `alert`, `console`, and the `loadRooms` reload with its loading and error flags. These are I/O. The server's verdict is an input parameter.
- The server-side occupancy ledger, capacity checks, schedule evaluation and status refresh. The pages call them, but their code is not part of this model.
- DOM construction of the floor maps, floor show/hide, popover creation and positioning (pixel and scroll arithmetic), and re-rendering in `updateRoom`. The tooltip text and status class they display are modelled as functions of the count.
- React rendering and JSX markup beyond the check-in button rule, the summary figures and the occupied filter. Routing, `localStorage`, the login and register pages, and the backend's register and login handlers are also left out.
- Home.ToolText: no contract states the category label in the middle of the tooltip; it is given by the definition alone. The visual capacity is stated by `Home.RoomCounts.Tooltip`, and the count by `Home.ToolTextCountRoundTrip`.
- Rooms.StaysUntilCheckedOut: this lemma is stated for non-zero room ids only. With room 0 the page's truthiness guard does not block other check-ins. It is stated over `Rooms.Run`, where each call's answer arrives before the next click. For overlapping calls the code as written breaks the one-room rule (see Findings).
- Rooms.RunRecordsAdmittedRoom: this lemma is stated over the sequential `Rooms.Run`. The same property for overlapping calls is `Rooms.PlayRecordsAdmittedRoom`.
- Rooms.StudentSession.HandleResponse: the model does not capture the page re-reading the room lists after an answer (`loadRooms`).
