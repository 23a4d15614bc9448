/** The room graph of one act (src/core/map.cpp, include/core/map.h) and how the player moves
    through it. Random generation is not modelled: a map is built from a given room table. The
    iteration order of the room table (an unordered map in the source) is the field `order`. */
module Maps {
  import opened Basics

  datatype RoomType = Monster | Elite | Boss | Rest | Event | Shop | Treasure

  datatype PathType = NormalPath | ElitePath | SafePath | RiskyPath

  datatype Room = Room(id: int, roomType: RoomType, nextRooms: seq<int>, prevRooms: seq<int>,
                       visited: bool, x: int, y: int, pathId: int, pathType: PathType,
                       distanceFromStart: int, distanceFromBoss: int, isCheckpoint: bool)

  datatype Path = Path(id: int, pathType: PathType, roomIds: seq<int>, difficultyRating: int, rewardsRating: int)

  /** `order` lists every key of `rooms` exactly once. */
  predicate Enumerates(order: seq<int>, rooms: map<int, Room>) {
    NoDuplicates(order) && (forall id :: id in order ==> id in rooms) && (forall id :: id in rooms ==> id in order)
  }

  /** Forward and backward links agree, and no room lists a next room twice. */
  ghost predicate Linked(rooms: map<int, Room>) {
    (forall a, b :: a in rooms && b in rooms[a].nextRooms ==> b in rooms && a in rooms[b].prevRooms) &&
    (forall a, b :: b in rooms && a in rooms[b].prevRooms ==> a in rooms && b in rooms[a].nextRooms) &&
    (forall a :: a in rooms ==> NoDuplicates(rooms[a].nextRooms))
  }

  /** `createRoomLink(fromId, toId)` on the room table. */
  function LinkAdded(rooms: map<int, Room>, fromId: int, toId: int): (r: map<int, Room>)
    ensures r.Keys == rooms.Keys
    ensures forall a, b :: a in rooms ==>
              (b in r[a].nextRooms <==> b in rooms[a].nextRooms || (a == fromId && b == toId && toId in rooms))
    ensures forall a, b :: a in rooms ==>
              (b in r[a].prevRooms <==>
                 (b in rooms[a].prevRooms ||
                  (a == toId && b == fromId && fromId in rooms && toId !in rooms[fromId].nextRooms)))
    ensures forall a :: a in rooms ==>
              r[a].visited == rooms[a].visited && r[a].roomType == rooms[a].roomType && r[a].y == rooms[a].y
    ensures forall a :: a in rooms ==>
              r[a] == rooms[a].(nextRooms := r[a].nextRooms, prevRooms := r[a].prevRooms)
    ensures forall a :: a in rooms && a != fromId && a != toId ==> r[a] == rooms[a]
  {
    if fromId !in rooms || toId !in rooms || toId in rooms[fromId].nextRooms then rooms
    else
      var r1 := rooms[fromId := rooms[fromId].(nextRooms := rooms[fromId].nextRooms + [toId])];
      r1[toId := r1[toId].(prevRooms := r1[toId].prevRooms + [fromId])]
  }

  /** Linking keeps forward and backward links consistent and next lists free of duplicates. */
  lemma LinkKeepsLinked(rooms: map<int, Room>, fromId: int, toId: int)
    requires Linked(rooms)
    ensures Linked(LinkAdded(rooms, fromId, toId))
  {
    var r := LinkAdded(rooms, fromId, toId);
    if fromId in rooms && toId in rooms && toId !in rooms[fromId].nextRooms {
      forall a | a in r ensures NoDuplicates(r[a].nextRooms) {
        if a == fromId {
          var s := rooms[fromId].nextRooms;
          assert r[a].nextRooms == s + [toId];
          assert NoDuplicates(s);
          forall i, j | 0 <= i < j < |s + [toId]| ensures (s + [toId])[i] != (s + [toId])[j] {
            if j == |s| {
              assert s[i] in s;
            }
          }
        } else {
          assert r[a].nextRooms == rooms[a].nextRooms;
        }
      }
    }
  }

  /** Marking a room visited leaves the links alone. */
  lemma VisitKeepsLinked(rooms: map<int, Room>, id: int)
    requires Linked(rooms) && id in rooms
    ensures Linked(rooms[id := rooms[id].(visited := true)])
  {
    var r := rooms[id := rooms[id].(visited := true)];
    assert forall a :: a in r ==> r[a].nextRooms == rooms[a].nextRooms && r[a].prevRooms == rooms[a].prevRooms;
  }

  /** The first floor-0 room in iteration order: where a fresh map starts. */
  function StartRoom(rooms: map<int, Room>, order: seq<int>): (r: Option<int>)
    ensures r.Some? ==>
              r.value in rooms && rooms[r.value].y == 0 &&
              exists k :: 0 <= k < |order| && order[k] == r.value &&
                forall j :: 0 <= j < k ==> order[j] !in rooms || rooms[order[j]].y != 0
    ensures r.None? ==> forall id :: id in order && id in rooms ==> rooms[id].y != 0
  {
    if order == [] then None
    else if order[0] in rooms && rooms[order[0]].y == 0 then Some(order[0])
    else
      var rest := StartRoom(rooms, order[1..]);
      if rest.Some? then
        var k :| 0 <= k < |order[1..]| && order[1..][k] == rest.value &&
                 forall j :: 0 <= j < k ==> order[1..][j] !in rooms || rooms[order[1..][j]].y != 0;
        assert order[k + 1] == rest.value;
        rest
      else
        assert forall id :: id in order ==> id == order[0] || id in order[1..];
        rest
  }

  predicate IsBoss(rooms: map<int, Room>, id: int) {
    id in rooms && rooms[id].roomType == Boss
  }

  /** Position `k` of `order` holds a boss room and no later position does. */
  predicate LastBossAt(rooms: map<int, Room>, order: seq<int>, k: int) {
    0 <= k < |order| && IsBoss(rooms, order[k]) &&
    forall j :: k < j < |order| ==> !IsBoss(rooms, order[j])
  }

  /** The last boss room in iteration order: the one `validateMap` aims for. */
  function LastBoss(rooms: map<int, Room>, order: seq<int>): (r: Option<int>)
    ensures r.Some? ==> IsBoss(rooms, r.value) && exists k :: LastBossAt(rooms, order, k) && order[k] == r.value
    ensures r.None? ==> forall id :: id in order ==> !IsBoss(rooms, id)
  {
    if order == [] then None
    else
      var init := order[..|order| - 1];
      var last := order[|order| - 1];
      if IsBoss(rooms, last) then
        assert LastBossAt(rooms, order, |order| - 1);
        Some(last)
      else
        var rest := LastBoss(rooms, init);
        if rest.Some? then
          var k :| LastBossAt(rooms, init, k) && init[k] == rest.value;
          assert LastBossAt(rooms, order, k) by {
            assert forall j :: k < j < |order| - 1 ==> order[j] == init[j];
          }
          rest
        else
          assert forall id :: id in order ==> id == last || id in init;
          rest
  }

  /** A walk through the map: every step follows a `nextRooms` link of an existing room. */
  ghost predicate IsWalk(rooms: map<int, Room>, p: seq<int>) {
    |p| > 0 && forall i :: 0 <= i < |p| - 1 ==> p[i] in rooms && p[i + 1] in rooms[p[i]].nextRooms
  }

  ghost predicate Reachable(rooms: map<int, Room>, a: int, b: int) {
    exists p :: IsWalk(rooms, p) && p[0] == a && p[|p| - 1] == b
  }

  /** A walk that reaches `b` can take one more step. */
  lemma ReachExtend(rooms: map<int, Room>, a: int, b: int, c: int)
    requires Reachable(rooms, a, b) && b in rooms && c in rooms[b].nextRooms
    ensures Reachable(rooms, a, c)
  {
    var p :| IsWalk(rooms, p) && p[0] == a && p[|p| - 1] == b;
    var q := p + [c];
    assert IsWalk(rooms, q) && q[0] == a && q[|q| - 1] == c;
  }

  /** Every room is reachable from itself. */
  lemma ReachSelf(rooms: map<int, Room>, a: int)
    ensures Reachable(rooms, a, a)
  {
    assert IsWalk(rooms, [a]);
  }

  /** A set is closed when it holds every next room of each of its existing rooms. */
  ghost predicate Closed(rooms: map<int, Room>, s: set<int>) {
    forall v, w :: v in s && v in rooms && w in rooms[v].nextRooms ==> w in s
  }

  /** A walk that starts inside a closed set never leaves it. */
  lemma {:induction false} WalkStays(rooms: map<int, Room>, s: set<int>, p: seq<int>, n: nat)
    requires IsWalk(rooms, p) && p[0] in s && Closed(rooms, s) && n < |p|
    ensures p[n] in s
  {
    if n > 0 {
      WalkStays(rooms, s, p, n - 1);
      var v, w := p[n - 1], p[n];
      assert v in s && v in rooms && w in rooms[v].nextRooms;
    }
  }

  /** Nothing outside a closed set is reachable from inside it. */
  lemma ClosedBlocks(rooms: map<int, Room>, s: set<int>, a: int, b: int)
    requires Closed(rooms, s) && a in s && b !in s
    ensures !Reachable(rooms, a, b)
  {
    forall p | IsWalk(rooms, p) && p[0] == a ensures p[|p| - 1] != b {
      WalkStays(rooms, s, p, |p| - 1);
    }
  }

  /** Every room id the map mentions: its rooms and the targets of their links. */
  ghost function Mentioned(rooms: map<int, Room>): set<int> {
    rooms.Keys + set a, w | a in rooms && w in rooms[a].nextRooms :: w
  }

  lemma MentionedTargets(rooms: map<int, Room>, a: int, w: int)
    requires a in rooms && w in rooms[a].nextRooms
    ensures w in Mentioned(rooms)
  {
  }

  lemma Shrinks(u: set<int>, a: set<int>, b: set<int>, w: int)
    requires a <= b && w in b && w !in a && w in u
    ensures |u - b| < |u - a|
  {
    assert u - b <= u - a;
    assert w in (u - a) - (u - b);
    assert (u - a) == (u - b) + ((u - a) - (u - b));
  }

  /** `getAvailableRooms` on a list of next rooms: those that exist and are unvisited, in order. */
  function Unvisited(rooms: map<int, Room>, ids: seq<int>): (r: seq<int>)
    ensures |r| <= |ids|
  {
    if ids == [] then []
    else
      var last := ids[|ids| - 1];
      Unvisited(rooms, ids[..|ids| - 1]) + (if last in rooms && !rooms[last].visited then [last] else [])
  }

  /** A room is offered exactly when it is linked, exists and is unvisited. */
  lemma {:induction false} UnvisitedMembers(rooms: map<int, Room>, ids: seq<int>)
    ensures forall x :: x in Unvisited(rooms, ids) <==> x in ids && x in rooms && !rooms[x].visited
  {
    if ids != [] {
      UnvisitedMembers(rooms, ids[..|ids| - 1]);
      assert ids == ids[..|ids| - 1] + [ids[|ids| - 1]];
    }
  }

  /** The path ratings set by `createPath`: difficulty and rewards, per path type. */
  function Ratings(t: PathType): (r: (int, int))
    ensures r.0 == r.1 && 3 <= r.0 <= 8
  {
    match t
    case NormalPath => (5, 5)
    case ElitePath => (8, 8)
    case SafePath => (3, 3)
    case RiskyPath => (7, 7)
  }

  /** Each path pays in rewards what it costs in difficulty, and the types rank
      safe < normal < risky < elite. */
  lemma RatingsRank()
    ensures forall t :: Ratings(t).0 == Ratings(t).1 && 3 <= Ratings(t).0 <= 8
    ensures Ratings(SafePath).0 < Ratings(NormalPath).0 < Ratings(RiskyPath).0 < Ratings(ElitePath).0
  {
    forall t ensures Ratings(t).0 == Ratings(t).1 && 3 <= Ratings(t).0 <= 8 {
      match t
      case NormalPath =>
      case ElitePath =>
      case SafePath =>
      case RiskyPath =>
    }
  }

  /** The enemy-floor adjustment of a path type. */
  function PathAdjustment(t: PathType): (r: int)
    ensures -1 <= r <= 2
    ensures r == 0 <==> t == NormalPath
  {
    match t
    case SafePath => -1
    case NormalPath => 0
    case RiskyPath => 1
    case ElitePath => 2
  }

  /** The unclamped difficulty of a room in act `act`. */
  function RawFloorRange(room: Room, act: int): (r: int)
    ensures var base := room.distanceFromStart + (act - 1) * 3; base - 1 <= r <= base + 2
  {
    room.distanceFromStart + (act - 1) * 3 + PathAdjustment(room.pathType)
  }

  function Clamp(lo: int, hi: int, v: int): int {
    Max(lo, Min(hi, v))
  }

  /** `getEnemyFloorRange` for a current room: the difficulty, clamped to [0, 15]. */
  function FloorRangeOf(room: Room, act: int): (r: int)
    ensures 0 <= r <= 15
    ensures var raw := RawFloorRange(room, act);
      (0 <= raw <= 15 ==> r == raw) && (raw < 0 ==> r == 0) && (raw > 15 ==> r == 15)
  {
    Clamp(0, 15, RawFloorRange(room, act))
  }

  /** Going further from the start, into a later act, or onto a harder path never lowers the
      floor range. */
  lemma FloorRangeMonotone(room: Room, act: int, room': Room, act': int)
    requires room.distanceFromStart <= room'.distanceFromStart && act <= act'
    requires PathAdjustment(room.pathType) <= PathAdjustment(room'.pathType)
    ensures FloorRangeOf(room, act) <= FloorRangeOf(room', act')
  {
  }

  function RoomTypeString(t: RoomType): (r: string)
    ensures r != "UNKNOWN" && |r| >= 4
  {
    match t
    case Monster => "MONSTER"
    case Elite => "ELITE"
    case Rest => "REST"
    case Event => "EVENT"
    case Shop => "SHOP"
    case Treasure => "TREASURE"
    case Boss => "BOSS"
  }

  /** Room type names are distinct, so a name identifies its type. */
  lemma RoomTypeStringInjective(a: RoomType, b: RoomType)
    ensures RoomTypeString(a) == RoomTypeString(b) ==> a == b
  {
  }

  /** The path id counter of `createPath`: a function-local static, so one counter serves every
      map of the run, starting at 1 (0 means no path). */
  class PathIds {
    var next: int
    /** The ids handed out so far. */
    ghost var issued: set<int>

    /** The counter starts at 1, only grows, and has handed out exactly the ids below it. */
    ghost predicate Valid()
      reads this
    {
      next >= 1 && forall id :: id in issued <==> 1 <= id < next
    }

    constructor ()
      ensures Valid() && next == 1 && issued == {}
    {
      next := 1;
      issued := {};
    }

    /** Hands out the next id. */
    method Take() returns (id: int)
      requires Valid()
      modifies this
      ensures Valid() && id == old(next) && next == id + 1
      ensures id >= 1 && id !in old(issued) && issued == old(issued) + {id}
    {
      id := next;
      next := next + 1;
      issued := issued + {id};
    }
  }

  class GameMap {
    var act: int
    var currentRoomId: int
    var rooms: map<int, Room>
    var order: seq<int>
    var paths: map<int, Path>
    var bossDefeated: bool

    ghost predicate Valid()
      reads this`rooms, this`order
    {
      Enumerates(order, rooms)
    }

    /** An empty map in act 1 with no current room. */
    constructor ()
      ensures Valid() && act == 1 && currentRoomId == -1 && rooms == map[] && paths == map[]
      ensures !bossDefeated
    {
      act := 1;
      currentRoomId := -1;
      rooms := map[];
      order := [];
      paths := map[];
      bossDefeated := false;
    }

    /** A map as generation leaves it: its act, its room table, and the table's iteration order. */
    constructor Generated(act: int, rooms: map<int, Room>, order: seq<int>)
      requires Enumerates(order, rooms)
      ensures Valid() && this.act == act && this.rooms == rooms && this.order == order
      ensures currentRoomId == -1 && paths == map[] && !bossDefeated
    {
      this.act := act;
      currentRoomId := -1;
      this.rooms := rooms;
      this.order := order;
      paths := map[];
      bossDefeated := false;
    }

    method CreateRoomLink(fromId: int, toId: int)
      requires Valid()
      modifies this`rooms
      ensures Valid() && rooms == LinkAdded(old(rooms), fromId, toId)
      ensures Linked(old(rooms)) ==> Linked(rooms)
    {
      if fromId !in rooms || toId !in rooms {
        return;
      }
      if toId in rooms[fromId].nextRooms {
        return;
      }
      rooms := rooms[fromId := rooms[fromId].(nextRooms := rooms[fromId].nextRooms + [toId])];
      rooms := rooms[toId := rooms[toId].(prevRooms := rooms[toId].prevRooms + [fromId])];
      if Linked(old(rooms)) {
        LinkKeepsLinked(old(rooms), fromId, toId);
      }
    }

    /** Records a new path with the ratings of its type, under the next id of the counter that
        every map shares, so ids keep growing from one map to the next. */
    method CreatePath(ids: PathIds, pathType: PathType) returns (id: int)
      requires ids.Valid()
      modifies this`paths, ids
      ensures ids.Valid() && id == old(ids.next) && ids.next == id + 1
      ensures id >= 1 && id !in old(ids.issued) && ids.issued == old(ids.issued) + {id}
      ensures paths == old(paths)[id := Path(id, pathType, [], Ratings(pathType).0, Ratings(pathType).1)]
    {
      id := ids.Take();
      var (difficulty, rewards) := Ratings(pathType);
      paths := paths[id := Path(id, pathType, [], difficulty, rewards)];
    }

    /** Where `canMoveTo` allows the player to go. */
    predicate MayEnter(roomId: int)
      reads this
    {
      roomId in rooms &&
      if currentRoomId < 0 then StartRoom(rooms, order) == Some(roomId)
      else currentRoomId in rooms && roomId in rooms[currentRoomId].nextRooms
    }

    /** Before the first move only the first floor-0 room may be entered; afterwards exactly the
        existing rooms linked from the current room. */
    lemma MayEnterRules(roomId: int)
      ensures MayEnter(roomId) ==> roomId in rooms
      ensures currentRoomId < 0 ==>
                (MayEnter(roomId) <==>
                   roomId in rooms && rooms[roomId].y == 0 &&
                   exists k :: 0 <= k < |order| && order[k] == roomId &&
                     forall j :: 0 <= j < k ==> order[j] !in rooms || rooms[order[j]].y != 0)
      ensures currentRoomId >= 0 ==>
                (MayEnter(roomId) <==>
                   roomId in rooms && currentRoomId in rooms && roomId in rooms[currentRoomId].nextRooms)
    {
      if currentRoomId < 0 && roomId in rooms && rooms[roomId].y == 0 {
        if k :| 0 <= k < |order| && order[k] == roomId &&
               forall j :: 0 <= j < k ==> order[j] !in rooms || rooms[order[j]].y != 0 {
          FirstIsStart(rooms, order, k);
        }
      }
    }

    method FindStart() returns (r: Option<int>)
      ensures r == StartRoom(rooms, order)
    {
      var i := 0;
      while i < |order|
        invariant 0 <= i <= |order|
        invariant StartRoom(rooms, order[i..]) == StartRoom(rooms, order)
      {
        assert order[i..][1..] == order[i + 1..];
        if order[i] in rooms && rooms[order[i]].y == 0 {
          return Some(order[i]);
        }
        i := i + 1;
      }
      return None;
    }

    method CanMoveTo(roomId: int) returns (r: bool)
      ensures r == MayEnter(roomId)
    {
      if roomId !in rooms {
        return false;
      }
      if currentRoomId < 0 {
        var start := FindStart();
        return start == Some(roomId);
      }
      if currentRoomId !in rooms {
        return false;
      }
      return roomId in rooms[currentRoomId].nextRooms;
    }

    method MoveToRoom(roomId: int) returns (ok: bool)
      modifies this`currentRoomId
      ensures ok == old(MayEnter(roomId))
      ensures currentRoomId == if ok then roomId else old(currentRoomId)
    {
      ok := CanMoveTo(roomId);
      if ok {
        currentRoomId := roomId;
      }
    }

    function CurrentRoom(): (r: Option<Room>)
      reads this
      ensures r.Some? <==> currentRoomId >= 0 && currentRoomId in rooms
      ensures r.Some? ==> r.value == rooms[currentRoomId]
    {
      if currentRoomId < 0 || currentRoomId !in rooms then None else Some(rooms[currentRoomId])
    }

    method GetAvailableRooms() returns (r: seq<int>)
      ensures r == if CurrentRoom().None? then [] else Unvisited(rooms, CurrentRoom().value.nextRooms)
    {
      if currentRoomId < 0 || currentRoomId !in rooms {
        return [];
      }
      var next := rooms[currentRoomId].nextRooms;
      r := [];
      for i := 0 to |next|
        invariant r == Unvisited(rooms, next[..i])
      {
        assert next[..i + 1][..i] == next[..i];
        if next[i] in rooms && !rooms[next[i]].visited {
          r := r + [next[i]];
        }
      }
      assert next[..|next|] == next;
    }

    method MarkCurrentRoomVisited()
      requires Valid()
      modifies this`rooms, this`bossDefeated
      ensures Valid()
      ensures old(CurrentRoom()).None? ==> rooms == old(rooms) && bossDefeated == old(bossDefeated)
      ensures old(CurrentRoom()).Some? ==>
                var room := old(rooms[currentRoomId]);
                rooms == old(rooms)[currentRoomId := room.(visited := true)] &&
                bossDefeated == (old(bossDefeated) || room.roomType == Boss)
      ensures Linked(old(rooms)) ==> Linked(rooms)
    {
      if currentRoomId >= 0 && currentRoomId in rooms {
        var room := rooms[currentRoomId];
        if Linked(rooms) {
          VisitKeepsLinked(rooms, currentRoomId);
        }
        rooms := rooms[currentRoomId := room.(visited := true)];
        if room.roomType == Boss {
          bossDefeated := true;
        }
      }
    }

    predicate Completed()
      reads this
    {
      bossDefeated || forall id :: id in rooms ==> rooms[id].visited
    }

    method IsMapCompleted() returns (r: bool)
      requires Valid()
      ensures r == Completed()
    {
      if bossDefeated {
        return true;
      }
      assert Enumerates(order, rooms);
      assert forall id :: id in order ==> id in rooms;
      forall j | 0 <= j < |order| ensures order[j] in rooms {
        assert order[j] in order;
      }
      for i := 0 to |order|
        invariant forall j :: 0 <= j < i ==> rooms[order[j]].visited
      {
        if !rooms[order[i]].visited {
          ghost var id := order[i];
          assert id in rooms && !rooms[id].visited;
          assert !Completed();
          return false;
        }
      }
      forall id | id in rooms ensures rooms[id].visited {
        var j :| 0 <= j < |order| && order[j] == id;
      }
      return true;
    }

    method MarkBossDefeated()
      modifies this`bossDefeated
      ensures bossDefeated
    {
      bossDefeated := true;
    }

    /** `getEnemyFloorRange`: 0 without a current room, otherwise the current room's clamped
        difficulty. */
    function EnemyFloorRange(): (r: int)
      reads this
      ensures 0 <= r <= 15
      ensures CurrentRoom().None? ==> r == 0
      ensures CurrentRoom().Some? ==> r == FloorRangeOf(CurrentRoom().value, act)
    {
      if currentRoomId < 0 || currentRoomId !in rooms then 0 else FloorRangeOf(rooms[currentRoomId], act)
    }

    method FindBoss() returns (r: Option<int>)
      ensures r == LastBoss(rooms, order)
    {
      r := None;
      for i := 0 to |order|
        invariant r == LastBoss(rooms, order[..i])
      {
        assert order[..i + 1][..i] == order[..i];
        if order[i] in rooms && rooms[order[i]].roomType == Boss {
          r := Some(order[i]);
        }
      }
      assert order[..|order|] == order;
    }

    /** `validateMap`: the map has a floor-0 room and a boss room, and a breadth-first search
        along next links from the first floor-0 room reaches the last boss room. */
    method ValidateMap() returns (ok: bool)
      ensures ok <==> var s, b := StartRoom(rooms, order), LastBoss(rooms, order);
                      s.Some? && b.Some? && Reachable(rooms, s.value, b.value)
    {
      if rooms == map[] {
        return false;
      }
      var start := FindStart();
      if start.None? {
        return false;
      }
      var boss := FindBoss();
      if boss.None? {
        return false;
      }
      ok := Search(rooms, start.value, boss.value);
    }
  }

  /** What the search knows between two rounds: everything seen is reachable from the start and
      is queued or done; done rooms have all their next rooms seen; the boss is not done. */
  ghost predicate Searching(rooms: map<int, Room>, start: int, boss: int, visited: set<int>, queue: seq<int>) {
    visited <= Mentioned(rooms) + {start} && start in visited &&
    (forall v :: v in queue ==> v in visited) &&
    (forall v :: v in visited ==> Reachable(rooms, start, v)) &&
    (boss in visited ==> boss in queue) &&
    forall v, w :: v in visited && v !in queue && v in rooms && w in rooms[v].nextRooms ==> w in visited
  }

  /** Expanding an existing room that is not the boss keeps what the search knows. */
  lemma SearchExpand(rooms: map<int, Room>, start: int, boss: int, visited: set<int>, queue: seq<int>,
                     visited': set<int>, added: seq<int>)
    requires Searching(rooms, start, boss, visited, queue) && queue != [] && queue[0] != boss && queue[0] in rooms
    requires visited' == visited + (set w | w in rooms[queue[0]].nextRooms)
    requires forall w :: w in added <==> w in rooms[queue[0]].nextRooms && w !in visited
    ensures Searching(rooms, start, boss, visited', queue[1..] + added)
  {
    var current := queue[0];
    assert queue == [current] + queue[1..];
    var u := Mentioned(rooms) + {start};
    forall v | v in visited' ensures Reachable(rooms, start, v) {
      if v !in visited {
        ReachExtend(rooms, start, current, v);
      }
    }
    forall v | v in visited' ensures v in u {
      if v !in visited {
        MentionedTargets(rooms, current, v);
      }
    }
  }

  /** Skipping a queued id that is not a room keeps what the search knows. */
  lemma SearchSkip(rooms: map<int, Room>, start: int, boss: int, visited: set<int>, queue: seq<int>)
    requires Searching(rooms, start, boss, visited, queue) && queue != [] && queue[0] != boss && queue[0] !in rooms
    ensures Searching(rooms, start, boss, visited, queue[1..])
  {
    assert queue == [queue[0]] + queue[1..];
  }

  /** Each round either marks a new id, of which there are finitely many, or shortens the queue. */
  lemma SearchProgress(u: set<int>, visited: set<int>, next: seq<int>, visited': set<int>, added: seq<int>)
    requires visited' == visited + (set w | w in next) && forall w :: w in next ==> w in u
    requires forall w :: w in added <==> w in next && w !in visited
    ensures added == [] ==> visited' == visited
    ensures added != [] ==> |u - visited'| < |u - visited|
  {
    if added != [] {
      assert added[0] in added;
      Shrinks(u, visited, visited', added[0]);
    } else {
      forall w | w in next ensures w in visited {
        assert w !in added;
      }
    }
  }

  /** The breadth-first search of `validateMap`, from `start` towards `boss`. */
  method Search(rooms: map<int, Room>, start: int, boss: int) returns (found: bool)
    ensures found <==> Reachable(rooms, start, boss)
  {
    ghost var universe := Mentioned(rooms) + {start};
    var visited: set<int> := {start};
    var queue: seq<int> := [start];
    ReachSelf(rooms, start);
    while queue != []
      invariant Searching(rooms, start, boss, visited, queue)
      decreases |universe - visited|, |queue|
    {
      var current := queue[0];
      if current == boss {
        return true;
      }
      if current in rooms {
        var visited', added := Expand(rooms[current].nextRooms, visited);
        SearchExpand(rooms, start, boss, visited, queue, visited', added);
        forall w | w in rooms[current].nextRooms ensures w in universe {
          MentionedTargets(rooms, current, w);
        }
        SearchProgress(universe, visited, rooms[current].nextRooms, visited', added);
        visited, queue := visited', queue[1..] + added;
      } else {
        SearchSkip(rooms, start, boss, visited, queue);
        queue := queue[1..];
      }
    }
    ClosedBlocks(rooms, visited, start, boss);
    return false;
  }

  /** The first floor-0 room in iteration order is the start room. */
  lemma {:induction false} FirstIsStart(rooms: map<int, Room>, order: seq<int>, k: nat)
    requires k < |order| && order[k] in rooms && rooms[order[k]].y == 0
    requires forall j :: 0 <= j < k ==> order[j] !in rooms || rooms[order[j]].y != 0
    ensures StartRoom(rooms, order) == Some(order[k])
  {
    if k > 0 {
      FirstIsStart(rooms, order[1..], k - 1);
    }
  }

  /** The inner loop of the search: every next room not yet seen is marked and queued, in order. */
  method Expand(next: seq<int>, visited: set<int>) returns (visited': set<int>, added: seq<int>)
    ensures visited' == visited + set w | w in next
    ensures forall w :: w in added <==> w in next && w !in visited
  {
    visited', added := visited, [];
    for j := 0 to |next|
      invariant visited' == visited + set w | w in next[..j]
      invariant forall w :: w in added <==> w in next[..j] && w !in visited
    {
      assert next[..j + 1] == next[..j] + [next[j]];
      if next[j] !in visited' {
        visited' := visited' + {next[j]};
        added := added + [next[j]];
      }
    }
    assert next[..|next|] == next;
  }
}
