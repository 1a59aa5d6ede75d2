/**
 The device-local list of joined rooms (src/storage/joined-rooms-store.ts): bulk archive
 and delete against their single-row forms, the key they match rows by, and what a
 re-record may change.
 */
module JoinedRooms {
  import opened Collections

  datatype Kind = Human | AgentKind

  datatype Seat = Seat(alias: string, kind: Option<Kind>)

  datatype Target = Target(roomId: string, baseUrl: string)

  datatype JoinedRoom = JoinedRoom(
    target: Target, title: string, alias: string, joinedAt: string, lastSeen: string,
    kind: Option<Kind>, seats: seq<Seat>, archived: bool)

  datatype BulkResult = BulkResult(requested: nat, matched: nat, changed: nat, missing: int)

  // ---- the row key ----

  function Digit(d: nat): char
    requires d < 10
  {
    "0123456789"[d]
  }

  function Decimal(n: nat): (s: string)
    ensures |s| > 0 && forall i :: 0 <= i < |s| ==> s[i] in "0123456789"
  {
    if n < 10 then [Digit(n)] else Decimal(n / 10) + [Digit(n % 10)]
  }

  function RowKey(t: Target): string {
    Decimal(|t.roomId|) + ":" + t.roomId + "|" + t.baseUrl
  }

  lemma {:induction false} DecimalInjective(m: nat, n: nat)
    requires Decimal(m) == Decimal(n)
    ensures m == n
  {
    var s := Decimal(m);
    assert m >= 10 ==> |s| >= 2;
    assert n >= 10 ==> |s| >= 2;
    if m >= 10 && n >= 10 {
      assert s[..|s| - 1] == Decimal(m / 10) && s[..|s| - 1] == Decimal(n / 10);
      DecimalInjective(m / 10, n / 10);
      assert s[|s| - 1] == Digit(m % 10) == Digit(n % 10);
    }
  }

  /** A separator that neither prefix contains splits equal strings at the same place. */
  lemma SplitsOnce(a: string, b: string, rest: string, tail: string, sep: char)
    requires a + [sep] + rest == b + [sep] + tail && sep !in a && sep !in b
    ensures a == b && rest == tail
  {
    var s := a + [sep] + rest;
    assert s[|a|] == sep && s[|b|] == sep;
    assert forall i :: 0 <= i < |a| ==> s[i] == a[i] && a[i] != sep;
    assert s == b + [sep] + tail;
    assert forall i :: 0 <= i < |b| ==> s[i] == b[i] && b[i] != sep;
    assert a == s[..|a|] && b == s[..|b|];
    assert rest == s[|a| + 1..] && tail == s[|b| + 1..];
  }

  /** The bulk operations' string key distinguishes exactly what the pair distinguishes. */
  lemma RowKeyInjective(a: Target, b: Target)
    ensures RowKey(a) == RowKey(b) <==> a == b
  {
    if RowKey(a) == RowKey(b) {
      var restA, restB := a.roomId + "|" + a.baseUrl, b.roomId + "|" + b.baseUrl;
      assert RowKey(a) == Decimal(|a.roomId|) + [':'] + restA;
      assert RowKey(b) == Decimal(|b.roomId|) + [':'] + restB;
      SplitsOnce(Decimal(|a.roomId|), Decimal(|b.roomId|), restA, restB, ':');
      DecimalInjective(|a.roomId|, |b.roomId|);
      assert a.roomId == restA[..|a.roomId|] && b.roomId == restB[..|b.roomId|];
      assert a.baseUrl == restA[|a.roomId| + 1..] && b.baseUrl == restB[|b.roomId| + 1..];
    }
  }

  // ---- bulk edits on values ----

  function KeysOf(targets: seq<Target>): set<string> {
    set i | 0 <= i < |targets| :: RowKey(targets[i])
  }

  function RowKeys(rooms: seq<JoinedRoom>): set<string> {
    set i | 0 <= i < |rooms| :: RowKey(rooms[i].target)
  }

  function Without(rooms: seq<JoinedRoom>, keys: set<string>): seq<JoinedRoom> {
    if rooms == [] then []
    else
      var last, front := rooms[|rooms| - 1], Without(rooms[..|rooms| - 1], keys);
      if RowKey(last.target) in keys then front else front + [last]
  }

  function WithoutOne(rooms: seq<JoinedRoom>, target: Target): seq<JoinedRoom> {
    if rooms == [] then []
    else
      var last, front := rooms[|rooms| - 1], WithoutOne(rooms[..|rooms| - 1], target);
      if last.target == target then front else front + [last]
  }

  function WithoutEach(rooms: seq<JoinedRoom>, targets: seq<Target>): seq<JoinedRoom>
    decreases |targets|
  {
    if targets == [] then rooms else WithoutEach(WithoutOne(rooms, targets[0]), targets[1..])
  }

  function Archived(rooms: seq<JoinedRoom>, keys: set<string>, archived: bool): (next: seq<JoinedRoom>)
    ensures |next| == |rooms|
    ensures forall i :: 0 <= i < |rooms| ==>
              next[i] == if RowKey(rooms[i].target) in keys then rooms[i].(archived := archived) else rooms[i]
  {
    seq(|rooms|, i requires 0 <= i < |rooms| => if RowKey(rooms[i].target) in keys then rooms[i].(archived := archived) else rooms[i])
  }

  /** `findIndex`-based single form: only the first row of the pair. */
  function ArchivedOne(rooms: seq<JoinedRoom>, target: Target, archived: bool): seq<JoinedRoom> {
    if rooms == [] then []
    else if rooms[0].target == target then [rooms[0].(archived := archived)] + rooms[1..]
    else [rooms[0]] + ArchivedOne(rooms[1..], target, archived)
  }

  function ArchivedEach(rooms: seq<JoinedRoom>, targets: seq<Target>, archived: bool): seq<JoinedRoom>
    decreases |targets|
  {
    if targets == [] then rooms else ArchivedEach(ArchivedOne(rooms, targets[0], archived), targets[1..], archived)
  }

  function CountMatched(rooms: seq<JoinedRoom>, keys: set<string>): nat {
    if rooms == [] then 0
    else CountMatched(rooms[..|rooms| - 1], keys) + if RowKey(rooms[|rooms| - 1].target) in keys then 1 else 0
  }

  function CountChanged(rooms: seq<JoinedRoom>, keys: set<string>, archived: bool): nat {
    if rooms == [] then 0
    else
      var last := rooms[|rooms| - 1];
      CountChanged(rooms[..|rooms| - 1], keys, archived) + if RowKey(last.target) in keys && last.archived != archived then 1 else 0
  }

  ghost predicate OneRowPerRoom(rooms: seq<JoinedRoom>) {
    forall i, j :: 0 <= i < j < |rooms| ==> rooms[i].target != rooms[j].target
  }

  // ---- bulk equals one by one ----

  lemma WithoutNone(rooms: seq<JoinedRoom>)
    ensures Without(rooms, {}) == rooms
  {
  }

  lemma {:induction false} WithoutOneMore(rooms: seq<JoinedRoom>, target: Target, keys: set<string>)
    ensures Without(rooms, {RowKey(target)} + keys) == Without(WithoutOne(rooms, target), keys)
  {
    if rooms != [] {
      var front, last := rooms[..|rooms| - 1], rooms[|rooms| - 1];
      RowKeyInjective(last.target, target);
      WithoutOneMore(front, target, keys);
      assert (WithoutOne(front, target) + [last])[..|WithoutOne(front, target)|] == WithoutOne(front, target);
    }
  }

  lemma KeysOfCons(targets: seq<Target>)
    requires targets != []
    ensures KeysOf(targets) == {RowKey(targets[0])} + KeysOf(targets[1..])
  {
    forall k | k in KeysOf(targets) ensures k in {RowKey(targets[0])} + KeysOf(targets[1..]) {
      var i :| 0 <= i < |targets| && k == RowKey(targets[i]);
      if i > 0 { assert targets[1..][i - 1] == targets[i]; }
    }
    forall k | k in KeysOf(targets[1..]) ensures k in KeysOf(targets) {
      var i :| 0 <= i < |targets[1..]| && k == RowKey(targets[1..][i]);
      assert targets[i + 1] == targets[1..][i];
    }
  }

  /** One bulk delete leaves exactly what deleting the targets one after another leaves. */
  lemma {:induction false} BulkDeleteIsEach(rooms: seq<JoinedRoom>, targets: seq<Target>)
    ensures Without(rooms, KeysOf(targets)) == WithoutEach(rooms, targets)
    decreases |targets|
  {
    if targets == [] {
      assert KeysOf(targets) == {};
      WithoutNone(rooms);
    } else {
      KeysOfCons(targets);
      WithoutOneMore(rooms, targets[0], KeysOf(targets[1..]));
      BulkDeleteIsEach(WithoutOne(rooms, targets[0]), targets[1..]);
    }
  }

  lemma {:induction false} ArchivedOnePointwise(rooms: seq<JoinedRoom>, target: Target, archived: bool)
    requires OneRowPerRoom(rooms)
    ensures |ArchivedOne(rooms, target, archived)| == |rooms|
    ensures forall i :: 0 <= i < |rooms| ==>
              ArchivedOne(rooms, target, archived)[i] == if rooms[i].target == target then rooms[i].(archived := archived) else rooms[i]
  {
    if rooms != [] && rooms[0].target != target {
      var rest, one := rooms[1..], ArchivedOne(rooms[1..], target, archived);
      ArchivedOnePointwise(rest, target, archived);
      var all := ArchivedOne(rooms, target, archived);
      assert all == [rooms[0]] + one;
      hide ArchivedOne, OneRowPerRoom;
      forall i | 0 <= i < |rooms| ensures all[i] == if rooms[i].target == target then rooms[i].(archived := archived) else rooms[i] {
        if i > 0 { assert all[i] == one[i - 1] && rest[i - 1] == rooms[i]; }
      }
    }
  }

  /** One bulk archive leaves exactly what archiving the targets one after another leaves. */
  lemma {:induction false} BulkArchiveIsEach(rooms: seq<JoinedRoom>, targets: seq<Target>, archived: bool)
    requires OneRowPerRoom(rooms)
    ensures Archived(rooms, KeysOf(targets), archived) == ArchivedEach(rooms, targets, archived)
    decreases |targets|
  {
    if targets == [] {
      assert Archived(rooms, KeysOf(targets), archived) == rooms;
    } else {
      KeysOfCons(targets);
      ArchivedOnePointwise(rooms, targets[0], archived);
      var one := ArchivedOne(rooms, targets[0], archived);
      assert OneRowPerRoom(one);
      BulkArchiveIsEach(one, targets[1..], archived);
      forall i | 0 <= i < |rooms|
        ensures Archived(rooms, KeysOf(targets), archived)[i] == Archived(one, KeysOf(targets[1..]), archived)[i]
      {
        RowKeyInjective(rooms[i].target, targets[0]);
      }
      assert Archived(rooms, KeysOf(targets), archived) == Archived(one, KeysOf(targets[1..]), archived);
    }
  }

  // ---- the honest counts ----

  lemma RowKeysSnoc(front: seq<JoinedRoom>, last: JoinedRoom)
    ensures RowKeys(front + [last]) == RowKeys(front) + {RowKey(last.target)}
  {
    var rooms := front + [last];
    assert rooms[|front|] == last;
    assert forall i :: 0 <= i < |front| ==> rooms[i] == front[i];
  }

  lemma KeyIsNew(front: seq<JoinedRoom>, last: JoinedRoom)
    requires OneRowPerRoom(front + [last])
    ensures RowKey(last.target) !in RowKeys(front)
  {
    var rooms := front + [last];
    forall i | 0 <= i < |front| ensures RowKey(front[i].target) != RowKey(last.target) {
      assert rooms[i] == front[i] && rooms[|front|] == last;
      RowKeyInjective(front[i].target, last.target);
    }
  }

  lemma OneMoreKey<T>(a: set<T>, keys: set<T>, key: T)
    requires key !in a
    ensures |(a + {key}) * keys| == |a * keys| + if key in keys then 1 else 0
  {
    if key in keys {
      assert (a + {key}) * keys == (a * keys) + {key};
    } else {
      assert (a + {key}) * keys == a * keys;
    }
  }

  lemma {:induction false} MatchedCountsKeys(rooms: seq<JoinedRoom>, keys: set<string>)
    requires OneRowPerRoom(rooms)
    ensures CountMatched(rooms, keys) == |RowKeys(rooms) * keys|
  {
    if rooms == [] {
      assert RowKeys(rooms) * keys == {};
    } else {
      var front, last := rooms[..|rooms| - 1], rooms[|rooms| - 1];
      assert rooms == front + [last];
      RowKeysSnoc(front, last);
      KeyIsNew(front, last);
      MatchedCountsKeys(front, keys);
      OneMoreKey(RowKeys(front), keys, RowKey(last.target));
    }
  }

  /** With one row per room, `missing` is exactly the number of requested rooms that had no row. */
  lemma MissingIsExact(rooms: seq<JoinedRoom>, targets: seq<Target>)
    requires OneRowPerRoom(rooms)
    ensures |KeysOf(targets)| - CountMatched(rooms, KeysOf(targets)) == |KeysOf(targets) - RowKeys(rooms)|
  {
    var keys := KeysOf(targets);
    MatchedCountsKeys(rooms, keys);
    assert keys == (keys - RowKeys(rooms)) + (RowKeys(rooms) * keys);
    assert (keys - RowKeys(rooms)) * (RowKeys(rooms) * keys) == {};
  }

  lemma {:induction false} WithoutCounts(rooms: seq<JoinedRoom>, keys: set<string>)
    ensures |rooms| - |Without(rooms, keys)| == CountMatched(rooms, keys)
  {
    if rooms != [] { WithoutCounts(rooms[..|rooms| - 1], keys); }
  }

  // ---- re-recording a room ----

  datatype Entry = Entry(
    target: Target, title: string, alias: string, joinedAt: string, lastSeen: string,
    kind: Option<Kind>, seats: seq<Seat>, archived: Option<bool>)

  predicate IsRealTitle(title: string, roomId: string) {
    |title| > 0 && title != roomId
  }

  function OrElse<T>(a: Option<T>, b: Option<T>): Option<T> {
    if a.Some? then a else b
  }

  /** `Map.set` on an insertion-ordered map of seats. */
  function PutSeat(seats: seq<Seat>, seat: Seat): seq<Seat> {
    if seats == [] then [seat]
    else if seats[0].alias == seat.alias then [seat] + seats[1..]
    else [seats[0]] + PutSeat(seats[1..], seat)
  }

  function KindOf(seats: seq<Seat>, alias: string): Option<Kind> {
    if seats == [] then None
    else if seats[0].alias == alias then seats[0].kind
    else KindOf(seats[1..], alias)
  }

  function Collected(seats: seq<Seat>): seq<Seat> {
    if seats == [] then []
    else
      var last, front := seats[|seats| - 1], Collected(seats[..|seats| - 1]);
      if last.alias == "" then front else PutSeat(front, last)
  }

  function Learned(known: seq<Seat>, seats: seq<Seat>): seq<Seat> {
    if seats == [] then known
    else
      var last, front := seats[|seats| - 1], Learned(known, seats[..|seats| - 1]);
      if last.alias == "" then front else PutSeat(front, Seat(last.alias, OrElse(last.kind, KindOf(front, last.alias))))
  }

  function MergeSeats(existing: seq<Seat>, incoming: seq<Seat>, selectedAlias: string, selectedKind: Option<Kind>): seq<Seat> {
    Learned(Collected(existing), incoming + if selectedAlias == "" then [] else [Seat(selectedAlias, selectedKind)])
  }

  function RecordFor(existing: Option<JoinedRoom>, entry: Entry, keepSelectedAlias: bool): JoinedRoom {
    var kept := keepSelectedAlias && existing.Some? && |existing.value.alias| > 0;
    var title :=
      if IsRealTitle(entry.title, entry.target.roomId) then entry.title
      else if existing.Some? && IsRealTitle(existing.value.title, entry.target.roomId) then existing.value.title
      else if |entry.title| > 0 then entry.title else entry.target.roomId;
    var alias := if kept then existing.value.alias else entry.alias;
    var kind := OrElse(entry.kind, if existing.Some? && existing.value.alias == alias then existing.value.kind else None);
    JoinedRoom(
      entry.target, title, alias,
      if existing.Some? then existing.value.joinedAt else entry.joinedAt, entry.lastSeen, kind,
      MergeSeats(if existing.Some? then existing.value.seats else [], entry.seats, alias, kind),
      if entry.archived.Some? then entry.archived.value else existing.Some? && existing.value.archived)
  }

  /** `findIndex` by the pair. */
  function RowIndex(rooms: seq<JoinedRoom>, target: Target): (i: int)
    ensures -1 <= i < |rooms|
    ensures i >= 0 ==> rooms[i].target == target && forall j :: 0 <= j < i ==> rooms[j].target != target
    ensures i == -1 ==> forall j :: 0 <= j < |rooms| ==> rooms[j].target != target
  {
    if rooms == [] then -1
    else if rooms[0].target == target then 0
    else
      var rest := RowIndex(rooms[1..], target);
      assert forall j :: 0 < j < |rooms| ==> rooms[j] == rooms[1..][j - 1];
      if rest == -1 then -1 else rest + 1
  }

  function Upserted(rooms: seq<JoinedRoom>, entry: Entry, keepSelectedAlias: bool): seq<JoinedRoom> {
    var i := RowIndex(rooms, entry.target);
    if i == -1 then rooms + [RecordFor(None, entry, keepSelectedAlias)]
    else rooms[i := RecordFor(Some(rooms[i]), entry, keepSelectedAlias)]
  }

  /** Every edit keeps one row per room; a re-record leaves every other row in place. */
  lemma UpsertKeepsRows(rooms: seq<JoinedRoom>, entry: Entry, keepSelectedAlias: bool)
    requires OneRowPerRoom(rooms)
    ensures var next := Upserted(rooms, entry, keepSelectedAlias);
            && OneRowPerRoom(next) && RowIndex(next, entry.target) >= 0
            && (forall i :: 0 <= i < |rooms| && rooms[i].target != entry.target ==> next[i] == rooms[i])
            && |next| == |rooms| + if RowIndex(rooms, entry.target) == -1 then 1 else 0
  {
    var next := Upserted(rooms, entry, keepSelectedAlias);
    var i := RowIndex(rooms, entry.target);
    assert next[if i == -1 then |rooms| else i].target == entry.target;
  }

  lemma WithoutKeepsRows(rooms: seq<JoinedRoom>, keys: set<string>)
    requires OneRowPerRoom(rooms)
    ensures OneRowPerRoom(Without(rooms, keys))
    ensures forall room :: room in Without(rooms, keys) <==> room in rooms && RowKey(room.target) !in keys
  {
    if rooms != [] {
      var front, last := rooms[..|rooms| - 1], rooms[|rooms| - 1];
      assert rooms == front + [last];
      WithoutKeepsRows(front, keys);
      var kept := Without(front, keys);
      forall i | 0 <= i < |kept| ensures kept[i].target != last.target {
        assert kept[i] in kept && kept[i] in front;
        var j :| 0 <= j < |front| && front[j] == kept[i];
        assert rooms[j] == front[j];
      }
    }
  }

  /** A metadata refresh never replaces the identity the row opens as, nor hides or reveals a row by itself. */
  lemma RefreshKeepsIdentity(existing: JoinedRoom, entry: Entry)
    requires |existing.alias| > 0
    ensures RecordFor(Some(existing), entry, true).alias == existing.alias
    ensures entry.archived.None? ==> RecordFor(Some(existing), entry, true).archived == existing.archived
  {
  }

  lemma {:induction false} PutSeatLookup(seats: seq<Seat>, seat: Seat, alias: string)
    ensures KindOf(PutSeat(seats, seat), alias) == if alias == seat.alias then seat.kind else KindOf(seats, alias)
  {
    if seats != [] && seats[0].alias != seat.alias {
      PutSeatLookup(seats[1..], seat, alias);
    }
  }

  lemma {:induction false} LearnedKeepsKinds(known: seq<Seat>, seats: seq<Seat>, alias: string)
    ensures KindOf(known, alias).Some? ==> KindOf(Learned(known, seats), alias).Some?
    ensures (forall i :: 0 <= i < |seats| ==> seats[i].alias != alias) ==> KindOf(Learned(known, seats), alias) == KindOf(known, alias)
  {
    if seats != [] {
      var front, last := seats[..|seats| - 1], seats[|seats| - 1];
      assert forall i :: 0 <= i < |front| ==> front[i] == seats[i];
      LearnedKeepsKinds(known, front, alias);
      var sofar := Learned(known, front);
      PutSeatLookup(sofar, Seat(last.alias, OrElse(last.kind, KindOf(sofar, last.alias))), alias);
    }
  }

  /** Importing seats is additive: a known kind is never lost, and seats not mentioned keep theirs. */
  lemma SeatsAreAdditive(existing: seq<Seat>, incoming: seq<Seat>, selectedAlias: string, selectedKind: Option<Kind>, alias: string)
    ensures KindOf(Collected(existing), alias).Some? ==> KindOf(MergeSeats(existing, incoming, selectedAlias, selectedKind), alias).Some?
    ensures alias != selectedAlias && (forall i :: 0 <= i < |incoming| ==> incoming[i].alias != alias) ==>
              KindOf(MergeSeats(existing, incoming, selectedAlias, selectedKind), alias) == KindOf(Collected(existing), alias)
  {
    LearnedKeepsKinds(Collected(existing), incoming + if selectedAlias == "" then [] else [Seat(selectedAlias, selectedKind)], alias);
  }

  // ---- where a stored kind comes from ----

  /** One edit of the list: an explicit join or import, a room page's metadata refresh, or a bulk edit. */
  datatype Edit =
    | RecordRoom(entry: Entry)
    | RefreshRoom(entry: Entry)
    | ArchiveRooms(targets: seq<Target>, archived: bool)
    | DeleteRooms(targets: seq<Target>)

  function Edited(rooms: seq<JoinedRoom>, edit: Edit): seq<JoinedRoom> {
    match edit
    case RecordRoom(entry) => Upserted(rooms, entry, false)
    case RefreshRoom(entry) => Upserted(rooms, entry, true)
    case ArchiveRooms(targets, archived) => Archived(rooms, KeysOf(targets), archived)
    case DeleteRooms(targets) => Without(rooms, KeysOf(targets))
  }

  function AfterEdits(edits: seq<Edit>): seq<JoinedRoom> {
    if edits == [] then [] else Edited(AfterEdits(edits[..|edits| - 1]), edits[|edits| - 1])
  }

  /** The entry says that the seat `alias` is of this kind. */
  predicate Says(entry: Entry, target: Target, alias: string, kind: Option<Kind>) {
    entry.target == target && ((entry.alias == alias && entry.kind == kind) || Seat(alias, kind) in entry.seats)
  }

  /** Some edit said, of this room, that `alias` is of this kind. */
  ghost predicate Said(edits: seq<Edit>, target: Target, alias: string, kind: Option<Kind>) {
    exists edit :: edit in edits && (edit.RecordRoom? || edit.RefreshRoom?) && Says(edit.entry, target, alias, kind)
  }

  ghost predicate SeatsSaid(edits: seq<Edit>, target: Target, seats: seq<Seat>) {
    forall seat :: seat in seats && seat.kind.Some? ==> Said(edits, target, seat.alias, seat.kind)
  }

  ghost predicate RowSaid(edits: seq<Edit>, room: JoinedRoom) {
    (room.kind.Some? ==> Said(edits, room.target, room.alias, room.kind)) && SeatsSaid(edits, room.target, room.seats)
  }

  /** Every kind stored after these edits stands beside an alias it was observed for. */
  ghost predicate KindsObserved(edits: seq<Edit>) {
    forall room :: room in AfterEdits(edits) ==> RowSaid(edits, room)
  }

  predicate OpensAs(rooms: seq<JoinedRoom>, target: Target, alias: string) {
    var i := RowIndex(rooms, target);
    i >= 0 && rooms[i].alias == alias
  }

  /** A refresh that brings a kind brings it for the alias its row opens as, if it opens as any. */
  predicate KeepsToAlias(entry: Entry, alias: string) {
    entry.kind.None? || alias == "" || alias == entry.alias || Seat(alias, entry.kind) in entry.seats
  }

  predicate Careful(rooms: seq<JoinedRoom>, edit: Edit) {
    edit.RefreshRoom? ==>
      var i := RowIndex(rooms, edit.entry.target);
      i >= 0 ==> KeepsToAlias(edit.entry, rooms[i].alias)
  }

  ghost predicate CarefulRun(edits: seq<Edit>) {
    edits != [] ==> CarefulRun(edits[..|edits| - 1]) && Careful(AfterEdits(edits[..|edits| - 1]), edits[|edits| - 1])
  }

  lemma SaidBefore(edits: seq<Edit>, edit: Edit, target: Target, alias: string, kind: Option<Kind>)
    requires Said(edits, target, alias, kind)
    ensures Said(edits + [edit], target, alias, kind)
  {
    var earlier :| earlier in edits && (earlier.RecordRoom? || earlier.RefreshRoom?) && Says(earlier.entry, target, alias, kind);
    assert earlier in edits + [edit];
  }

  lemma SaidNow(edits: seq<Edit>, edit: Edit, target: Target, alias: string, kind: Option<Kind>)
    requires (edit.RecordRoom? || edit.RefreshRoom?) && Says(edit.entry, target, alias, kind)
    ensures Said(edits + [edit], target, alias, kind)
  {
    assert edit in edits + [edit];
  }

  lemma RowSaidBefore(edits: seq<Edit>, edit: Edit, room: JoinedRoom)
    requires RowSaid(edits, room)
    ensures RowSaid(edits + [edit], room)
  {
    hide Said;
    forall seat | seat in room.seats && seat.kind.Some? ensures Said(edits + [edit], room.target, seat.alias, seat.kind) {
      SaidBefore(edits, edit, room.target, seat.alias, seat.kind);
    }
    if room.kind.Some? { SaidBefore(edits, edit, room.target, room.alias, room.kind); }
  }

  lemma {:induction false} PutSeatSaid(edits: seq<Edit>, target: Target, seats: seq<Seat>, seat: Seat)
    requires SeatsSaid(edits, target, seats) && (seat.kind.Some? ==> Said(edits, target, seat.alias, seat.kind))
    ensures SeatsSaid(edits, target, PutSeat(seats, seat))
  {
    hide Said;
    if seats != [] && seats[0].alias != seat.alias {
      PutSeatSaid(edits, target, seats[1..], seat);
    }
  }

  lemma {:induction false} CollectedSaid(edits: seq<Edit>, target: Target, seats: seq<Seat>)
    requires SeatsSaid(edits, target, seats)
    ensures SeatsSaid(edits, target, Collected(seats))
  {
    hide Said;
    if seats != [] {
      CollectedSaid(edits, target, seats[..|seats| - 1]);
      PutSeatSaid(edits, target, Collected(seats[..|seats| - 1]), seats[|seats| - 1]);
    }
  }

  lemma {:induction false} KindOfIsASeat(seats: seq<Seat>, alias: string)
    ensures KindOf(seats, alias).Some? ==> Seat(alias, KindOf(seats, alias)) in seats
  {
    if seats != [] { KindOfIsASeat(seats[1..], alias); }
  }

  lemma {:induction false} LearnedSaid(edits: seq<Edit>, target: Target, known: seq<Seat>, seats: seq<Seat>)
    requires SeatsSaid(edits, target, known) && SeatsSaid(edits, target, seats)
    ensures SeatsSaid(edits, target, Learned(known, seats))
  {
    hide Said;
    if seats != [] {
      var front, last := seats[..|seats| - 1], seats[|seats| - 1];
      LearnedSaid(edits, target, known, front);
      var sofar := Learned(known, front);
      KindOfIsASeat(sofar, last.alias);
      PutSeatSaid(edits, target, sofar, Seat(last.alias, OrElse(last.kind, KindOf(sofar, last.alias))));
    }
  }

  /** A re-recorded row's kind: said now of the alias it keeps, or kept with the alias it was said of. */
  lemma RecordSaid(edits: seq<Edit>, edit: Edit, existing: Option<JoinedRoom>)
    requires edit.RecordRoom? || edit.RefreshRoom?
    requires existing.Some? ==> RowSaid(edits, existing.value) && existing.value.target == edit.entry.target
    requires edit.RefreshRoom? && existing.Some? ==> KeepsToAlias(edit.entry, existing.value.alias)
    ensures RowSaid(edits + [edit], RecordFor(existing, edit.entry, edit.RefreshRoom?))
  {
    var entry, all := edit.entry, edits + [edit];
    var record := RecordFor(existing, entry, edit.RefreshRoom?);
    hide Said;
    if existing.Some? { RowSaidBefore(edits, edit, existing.value); }
    if entry.kind.Some? { SaidNow(edits, edit, entry.target, record.alias, entry.kind); }
    forall seat | seat in entry.seats && seat.kind.Some? ensures Said(all, entry.target, seat.alias, seat.kind) {
      SaidNow(edits, edit, entry.target, seat.alias, seat.kind);
    }
    var known := if existing.Some? then existing.value.seats else [];
    CollectedSaid(all, entry.target, known);
    LearnedSaid(all, entry.target, Collected(known),
                entry.seats + if record.alias == "" then [] else [Seat(record.alias, record.kind)]);
  }

  /** What a bulk edit leaves of a row says nothing new about seats. */
  lemma {:induction false} WithoutIsPart(rooms: seq<JoinedRoom>, keys: set<string>)
    ensures forall room :: room in Without(rooms, keys) ==> room in rooms
  {
    if rooms != [] { WithoutIsPart(rooms[..|rooms| - 1], keys); }
  }

  lemma CarefulStepKeeps(edits: seq<Edit>, edit: Edit)
    requires KindsObserved(edits) && Careful(AfterEdits(edits), edit)
    ensures KindsObserved(edits + [edit])
  {
    var rooms, all := AfterEdits(edits), edits + [edit];
    assert all[..|all| - 1] == edits;
    hide RowSaid, RecordFor, KeysOf, KeepsToAlias;
    forall room | room in rooms ensures RowSaid(all, room) { RowSaidBefore(edits, edit, room); }
    match edit
    case RecordRoom(entry) =>
      var i := RowIndex(rooms, entry.target);
      RecordSaid(edits, edit, if i == -1 then None else Some(rooms[i]));
    case RefreshRoom(entry) =>
      var i := RowIndex(rooms, entry.target);
      RecordSaid(edits, edit, if i == -1 then None else Some(rooms[i]));
    case ArchiveRooms(targets, archived) =>
      forall i | 0 <= i < |rooms| ensures RowSaid(all, rooms[i].(archived := archived)) { ArchivingSaysNothing(all, rooms[i], archived); }
    case DeleteRooms(targets) => WithoutIsPart(rooms, KeysOf(targets));
  }

  lemma ArchivingSaysNothing(edits: seq<Edit>, room: JoinedRoom, archived: bool)
    requires RowSaid(edits, room)
    ensures RowSaid(edits, room.(archived := archived))
  {
    hide Said;
  }

  /**
   Over every run of edits in which no refresh brings a kind for an alias its row does not
   open as, each stored kind, of a row or of a seat, was said of that very alias in that room.
   */
  lemma {:induction false} StoredKindsWereObserved(edits: seq<Edit>)
    requires CarefulRun(edits)
    ensures KindsObserved(edits)
  {
    if edits != [] {
      var front, last := edits[..|edits| - 1], edits[|edits| - 1];
      assert edits == front + [last];
      StoredKindsWereObserved(front);
      hide CarefulRun, Careful, KindsObserved;
      CarefulStepKeeps(front, last);
    }
  }

  lemma {:induction false} NoKindIsCareful(edits: seq<Edit>)
    requires forall edit :: edit in edits && edit.RefreshRoom? ==> edit.entry.kind.None?
    ensures CarefulRun(edits)
  {
    if edits != [] { NoKindIsCareful(edits[..|edits| - 1]); }
  }

  /** Refreshes that never bring a kind, the only ones a room page sends, never misplace one. */
  lemma RefreshesWithoutKindAreSafe(edits: seq<Edit>)
    requires forall edit :: edit in edits && edit.RefreshRoom? ==> edit.entry.kind.None?
    ensures KindsObserved(edits)
  {
    NoKindIsCareful(edits);
    StoredKindsWereObserved(edits);
  }

  function Joining(entry: Entry, alias: string): Entry {
    entry.(alias := alias, kind := None, seats := [])
  }

  /** A row that opens as `alias` without a kind, and the refresh that gives it another seat's kind. */
  lemma MisplacedKind(entry: Entry, alias: string)
    requires !KeepsToAlias(entry, alias)
    ensures var before := [RecordRoom(Joining(entry, alias))];
      && KindsObserved(before) && OpensAs(AfterEdits(before), entry.target, alias)
      && !KindsObserved(before + [RefreshRoom(entry)])
  {
    var join, refresh := RecordRoom(Joining(entry, alias)), RefreshRoom(entry);
    var before := [join];
    var row := RecordFor(None, Joining(entry, alias), false);
    assert before[..0] == [] && AfterEdits([]) == [];
    assert AfterEdits(before) == [row];
    StoredKindsWereObserved(before);
    var all := before + [refresh];
    assert all[..1] == before;
    var after := RecordFor(Some(row), entry, true);
    assert AfterEdits(all) == [after] && after in AfterEdits(all);
    assert !Said(all, entry.target, alias, entry.kind);
  }

  /**
   For every entry and every alias a row opens as: refreshing with the entry keeps every
   stored kind beside an alias it was observed for, after whatever edits, exactly when the
   entry brings no kind, or brings it for that alias, or the row has none. The code never
   compares the two.
   */
  lemma KindTravelsWithAliasExactly(entry: Entry, alias: string)
    ensures (forall before :: KindsObserved(before) && OpensAs(AfterEdits(before), entry.target, alias)
                              ==> KindsObserved(before + [RefreshRoom(entry)]))
            <==> KeepsToAlias(entry, alias)
  {
    hide KindsObserved;
    if KeepsToAlias(entry, alias) {
      forall before | KindsObserved(before) && OpensAs(AfterEdits(before), entry.target, alias)
        ensures KindsObserved(before + [RefreshRoom(entry)])
      {
        CarefulStepKeeps(before, RefreshRoom(entry));
      }
    } else {
      MisplacedKind(entry, alias);
    }
  }

  // ---- the mutable store ----

  class JoinedRoomsStore {
    var rooms: seq<JoinedRoom>
    var writes: nat   // atomic replacements of the file so far

    constructor ()
      ensures rooms == [] && writes == 0
    {
      rooms, writes := [], 0;
    }

    method Upsert(entry: Entry, keepSelectedAlias: bool)
      modifies this
      ensures rooms == Upserted(old(rooms), entry, keepSelectedAlias) && writes == old(writes) + 1
    {
      var index := RowIndex(rooms, entry.target);
      var record := RecordFor(if index == -1 then None else Some(rooms[index]), entry, keepSelectedAlias);
      if index == -1 { rooms := rooms + [record]; } else { rooms := rooms[index := record]; }
      writes := writes + 1;
    }

    static method DedupeTargets(targets: seq<Target>) returns (unique: map<string, Target>)
      ensures unique.Keys == KeysOf(targets)
    {
      unique := map[];
      var i := 0;
      while i < |targets|
        invariant 0 <= i <= |targets|
        invariant unique.Keys == set j | 0 <= j < i :: RowKey(targets[j])
      {
        unique := unique[RowKey(targets[i]) := targets[i]];
        i := i + 1;
      }
    }

    /** The pass over the rows: `changed` is zero only if every row stays as it was. */
    static method MarkArchived(before: seq<JoinedRoom>, unique: map<string, Target>, archived: bool)
      returns (next: seq<JoinedRoom>, matched: nat, changed: nat)
      ensures next == Archived(before, unique.Keys, archived) && (changed == 0 ==> next == before)
      ensures matched == CountMatched(before, unique.Keys) && changed == CountChanged(before, unique.Keys, archived)
    {
      hide RowKey;
      next, matched, changed := before, 0, 0;
      for i := 0 to |before|
        invariant |next| == |before|
        invariant forall j :: 0 <= j < i ==> next[j] == if RowKey(before[j].target) in unique.Keys then before[j].(archived := archived) else before[j]
        invariant forall j :: i <= j < |before| ==> next[j] == before[j]
        invariant matched == CountMatched(before[..i], unique.Keys) && changed == CountChanged(before[..i], unique.Keys, archived)
        invariant changed == 0 ==> next == before
      {
        assert before[..i + 1][..i] == before[..i];
        if RowKey(before[i].target) in unique {
          matched := matched + 1;
          if before[i].archived != archived {
            changed := changed + 1;
            next := next[i := before[i].(archived := archived)];
          }
        }
      }
      assert before[..|before|] == before;
    }

    /** One pass over the rows, one write, and none at all when nothing changed. */
    method SetArchivedMany(targets: seq<Target>, archived: bool) returns (result: BulkResult)
      modifies this
      ensures rooms == Archived(old(rooms), KeysOf(targets), archived)
      ensures writes == old(writes) + if CountChanged(old(rooms), KeysOf(targets), archived) > 0 then 1 else 0
      ensures result == BulkResult(
                |KeysOf(targets)|, CountMatched(old(rooms), KeysOf(targets)), CountChanged(old(rooms), KeysOf(targets), archived),
                |KeysOf(targets)| - CountMatched(old(rooms), KeysOf(targets)))
    {
      var unique := DedupeTargets(targets);
      ghost var keys := KeysOf(targets);
      var before := rooms;
      if |unique| == 0 {
        assert keys == {};
        NothingSelected(before, archived);
        return BulkResult(0, 0, 0, 0);
      }
      var next, matched, changed := MarkArchived(before, unique, archived);
      if changed > 0 {
        rooms := next;
        writes := writes + 1;
      }
      return BulkResult(|unique.Keys|, matched, changed, |unique.Keys| - matched);
    }

    /** The row half of a bulk delete: one filtered write. */
    method DeleteMany(targets: seq<Target>) returns (result: BulkResult)
      modifies this
      ensures rooms == Without(old(rooms), KeysOf(targets))
      ensures result.requested == |KeysOf(targets)| && result.changed == result.matched
      ensures result.matched == CountMatched(old(rooms), KeysOf(targets)) && result.missing == result.requested - result.matched
    {
      hide RowKey, KeysOf;
      var unique := DedupeTargets(targets);
      ghost var keys := KeysOf(targets);
      WithoutCounts(rooms, keys);
      if |unique| == 0 {
        assert keys == {};
        NothingSelected(rooms, true);
        return BulkResult(0, 0, 0, 0);
      }
      var next, i := [], 0;
      while i < |rooms|
        invariant 0 <= i <= |rooms| && next == Without(rooms[..i], keys)
      {
        assert rooms[..i + 1][..i] == rooms[..i];
        if RowKey(rooms[i].target) !in unique { next := next + [rooms[i]]; }
        i := i + 1;
      }
      assert rooms[..i] == rooms;
      var removed := |rooms| - |next|;
      if removed > 0 {
        rooms := next;
        writes := writes + 1;
      } else {
        NothingRemoved(rooms, keys);
      }
      return BulkResult(|unique.Keys|, removed, removed, |unique.Keys| - removed);
    }
  }

  lemma {:induction false} NothingSelected(rooms: seq<JoinedRoom>, archived: bool)
    ensures Archived(rooms, {}, archived) == rooms && Without(rooms, {}) == rooms
    ensures CountMatched(rooms, {}) == 0 && CountChanged(rooms, {}, archived) == 0
  {
    if rooms != [] { NothingSelected(rooms[..|rooms| - 1], archived); }
  }

  lemma {:induction false} NothingRemoved(rooms: seq<JoinedRoom>, keys: set<string>)
    requires |Without(rooms, keys)| >= |rooms|
    ensures Without(rooms, keys) == rooms
  {
    if rooms != [] {
      WithoutShrinks(rooms[..|rooms| - 1], keys);
      NothingRemoved(rooms[..|rooms| - 1], keys);
    }
  }

  lemma {:induction false} WithoutShrinks(rooms: seq<JoinedRoom>, keys: set<string>)
    ensures |Without(rooms, keys)| <= |rooms|
  {
    if rooms != [] { WithoutShrinks(rooms[..|rooms| - 1], keys); }
  }
}
