/** Presence replication: versioned updates delivered in any order, any number of
    times or not at all, filtered by the last version seen and shown in a view. */
module Replication {
  import opened Wrappers

  /** `state` stands for the fields no rule looks at. */
  datatype Presence = Presence(room: string, user: string, state: string, version: int, left: bool)

  datatype Update = Update(id: string, payload: Presence, version: int, nodeId: string)

  /** The identifier under which a user's presence in a room is replicated. */
  function IdOf(room: string, user: string): string {
    room + "|" + user
  }

  /** Two rooms can share an identifier, and with it a version, exactly when one name
      continues the other with a bar. */
  lemma {:induction false} RoomsCollide(room: string, room': string)
    requires room != room'
    ensures (exists user, user' :: IdOf(room, user) == IdOf(room', user')) <==>
              room + "|" <= room' || room' + "|" <= room
  {
    if room + "|" <= room' {
      assert IdOf(room, room'[|room| + 1..] + "|") == IdOf(room', "");
    }
    if room' + "|" <= room {
      assert IdOf(room, "") == IdOf(room', room[|room'| + 1..] + "|");
    }
    if user, user' :| IdOf(room, user) == IdOf(room', user') {
      var x, y := IdOf(room, user), IdOf(room', user');
      assert room == x[..|room|] && room' == y[..|room'|];
      assert room + "|" == x[..|room| + 1] && room' + "|" == y[..|room'| + 1];
    }
  }

  lemma {:induction false} Continued(room: string, room': string)
    ensures room + "|" <= room' ==> '|' in room'
  {
    if room + "|" <= room' {
      assert room'[|room|] == '|';
    }
  }

  /** So identifiers are distinct among rooms whose names have no bar. */
  lemma {:induction false} IdsDistinct(room: string, user: string, room': string, user': string)
    requires '|' !in room && '|' !in room' && IdOf(room, user) == IdOf(room', user')
    ensures room == room' && user == user'
  {
    Continued(room, room');
    Continued(room', room);
    if room != room' {
      RoomsCollide(room, room');
    }
    var s := IdOf(room, user);
    assert user == s[|room| + 1..] && user' == s[|room'| + 1..];
  }

  // ---- What a replica does, with its view as one flat map ----

  type Place = (string, string)

  /** `handled` lists the updates passed on to handlers. */
  datatype State = State(versions: map<string, int>, view: map<Place, Presence>, handled: seq<Update>)

  const INIT := State(map[], map[], [])

  function Seen(versions: map<string, int>, id: string): int {
    if id in versions then versions[id] else 0
  }

  /** The view keeps a newer presence it already has. */
  function Show(view: map<Place, Presence>, p: Presence): map<Place, Presence> {
    var at := (p.room, p.user);
    if at in view && view[at].version > p.version then view else view[at := p]
  }

  function Handle(view: map<Place, Presence>, p: Presence): map<Place, Presence> {
    if p.left then view - {(p.room, p.user)} else Show(view, p)
  }

  /** An update from the network: dropped if it is our own or not newer than the last
      one seen under its identifier. */
  function Deliver(self: string, st: State, u: Update): State {
    if u.nodeId == self || u.version <= Seen(st.versions, u.id) then st
    else State(st.versions[u.id := u.version], Handle(st.view, u.payload), st.handled + [u])
  }

  /** A local announcement or departure: shown at once, and its version recorded. */
  function Local(st: State, p: Presence): State {
    var id := IdOf(p.room, p.user);
    st.(view := Handle(st.view, p),
        versions := if p.version > Seen(st.versions, id) then st.versions[id := p.version] else st.versions)
  }

  datatype Event = Delivered(update: Update) | Announced(presence: Presence)

  function Next(self: string, st: State, e: Event): State {
    match e
    case Delivered(u) => Deliver(self, st, u)
    case Announced(p) => Local(st, p)
  }

  function Run(self: string, events: seq<Event>): State {
    if events == [] then INIT else Next(self, Run(self, events[..|events| - 1]), events[|events| - 1])
  }

  // ---- One remote writer per place ----

  /** The events leave `at` to one remote writer: what it writes at each version is
      `content`, versions are positive, and nothing else uses its identifier. */
  ghost predicate SingleWriter(self: string, at: Place, content: int -> Presence, events: seq<Event>) {
    forall i :: 0 <= i < |events| ==>
      match events[i]
      case Delivered(u) =>
        if u.id == IdOf(at.0, at.1) then
          && u.nodeId != self && u.version > 0 && u.payload == content(u.version)
          && u.payload.version == u.version && (u.payload.room, u.payload.user) == at
        else (u.payload.room, u.payload.user) != at
      case Announced(p) => IdOf(p.room, p.user) != IdOf(at.0, at.1)
  }

  ghost predicate WasDelivered(events: seq<Event>, id: string, version: int) {
    exists i :: 0 <= i < |events| && events[i].Delivered? && events[i].update.id == id &&
        events[i].update.version == version
  }

  /** The highest version delivered for an identifier, 0 if none was. */
  function Highest(events: seq<Event>, id: string): int {
    if events == [] then 0
    else
      var rest := Highest(events[..|events| - 1], id);
      match events[|events| - 1]
      case Delivered(u) => if u.id == id && u.version > rest then u.version else rest
      case Announced(_) => rest
  }

  /** Highest is the maximum of the delivered versions, whatever their order. */
  lemma {:induction false} HighestIsMax(events: seq<Event>, id: string)
    ensures Highest(events, id) >= 0
    ensures Highest(events, id) > 0 ==> WasDelivered(events, id, Highest(events, id))
    ensures forall v :: WasDelivered(events, id, v) ==> v <= Highest(events, id)
  {
    if events != [] {
      var front, last := events[..|events| - 1], events[|events| - 1];
      HighestIsMax(front, id);
      forall v | WasDelivered(events, id, v)
        ensures v <= Highest(events, id)
      {
        var i :| 0 <= i < |events| && events[i].Delivered? && events[i].update.id == id &&
            events[i].update.version == v;
        if i < |front| {
          assert front[i] == events[i];
          assert WasDelivered(front, id, v);
        }
      }
      var h := Highest(events, id);
      if h > 0 {
        if h == Highest(front, id) {
          var i :| 0 <= i < |front| && front[i].Delivered? && front[i].update.id == id && front[i].update.version == h;
          assert events[i] == front[i];
        } else {
          assert events[|events| - 1].update.version == h;
        }
      }
    }
  }

  /** The presence a place should show: the newest delivered, unless that is a departure. */
  function Expected(content: int -> Presence, highest: int): Option<Presence> {
    if highest == 0 || content(highest).left then None else Some(content(highest))
  }

  function Shown(view: map<Place, Presence>, at: Place): Option<Presence> {
    if at in view then Some(view[at]) else None
  }

  /** Convergence: under any reordering, duplication and loss, the view of a place is
      decided by the highest version delivered for it. */
  lemma {:induction false} ViewIsNewest(self: string, at: Place, content: int -> Presence, events: seq<Event>)
    requires SingleWriter(self, at, content, events)
    ensures var st, id := Run(self, events), IdOf(at.0, at.1);
            && Seen(st.versions, id) == Highest(events, id)
            && Shown(st.view, at) == Expected(content, Highest(events, id))
  {
    if events != [] {
      var front, last := events[..|events| - 1], events[|events| - 1];
      assert forall i :: 0 <= i < |front| ==> front[i] == events[i];
      ViewIsNewest(self, at, content, front);
      HighestIsMax(front, IdOf(at.0, at.1));
      assert events[|events| - 1] == last;
      if Highest(front, IdOf(at.0, at.1)) > 0 {
        ContentVersion(self, at, content, front);
      }
    }
  }

  lemma {:induction false} ContentVersion(self: string, at: Place, content: int -> Presence, events: seq<Event>)
    requires SingleWriter(self, at, content, events) && Highest(events, IdOf(at.0, at.1)) > 0
    ensures content(Highest(events, IdOf(at.0, at.1))).version == Highest(events, IdOf(at.0, at.1))
  {
    HighestIsMax(events, IdOf(at.0, at.1));
  }

  /** Replicas that were delivered the same versions of a place show the same. */
  lemma {:induction false} ReplicasAgree(self: string, self': string, at: Place, content: int -> Presence,
                      events: seq<Event>, events': seq<Event>)
    requires SingleWriter(self, at, content, events) && SingleWriter(self', at, content, events')
    requires forall v :: WasDelivered(events, IdOf(at.0, at.1), v) <==> WasDelivered(events', IdOf(at.0, at.1), v)
    ensures Shown(Run(self, events).view, at) == Shown(Run(self', events').view, at)
  {
    var id := IdOf(at.0, at.1);
    HighestIsMax(events, id);
    HighestIsMax(events', id);
    ViewIsNewest(self, at, content, events);
    ViewIsNewest(self', at, content, events');
  }

  ghost predicate Increasing(st: State) {
    && (forall i :: 0 <= i < |st.handled| ==> st.handled[i].version <= Seen(st.versions, st.handled[i].id))
    && (forall i, j :: 0 <= i < j < |st.handled| && st.handled[i].id == st.handled[j].id ==>
          st.handled[i].version < st.handled[j].version)
  }

  lemma {:induction false} HandledStep(self: string, st: State, e: Event)
    requires Increasing(st)
    ensures Increasing(Next(self, st, e))
  {
    var st' := Next(self, st, e);
    forall i | 0 <= i < |st'.handled|
      ensures st'.handled[i].version <= Seen(st'.versions, st'.handled[i].id)
    {
      if i < |st.handled| {
        assert st'.handled[i] == st.handled[i];
      }
    }
  }

  /** For every identifier and with no assumption at all, the updates handlers see
      strictly increase in version, and none is newer than the last one recorded. */
  lemma {:induction false} HandledIncreases(self: string, events: seq<Event>)
    ensures Increasing(Run(self, events))
  {
    if events != [] {
      HandledIncreases(self, events[..|events| - 1]);
      var before := Run(self, events[..|events| - 1]);
      HandledStep(self, before, events[|events| - 1]);
    }
  }

  // ---- The view as the manager keeps it: rooms of users, no empty room ----

  type Rooms = map<string, map<string, Presence>>

  predicate NoEmptyRoom(rooms: Rooms) {
    forall r :: r in rooms ==> rooms[r] != map[]
  }

  function Lookup(rooms: Rooms, room: string, user: string): Option<Presence> {
    if room in rooms && user in rooms[room] then Some(rooms[room][user]) else None
  }

  /** The nested and the flat view show the same at every place. */
  ghost predicate Same(rooms: Rooms, view: map<Place, Presence>) {
    forall r, u :: Lookup(rooms, r, u) == Shown(view, (r, u))
  }

  lemma {:induction false} RestShows(rooms: Rooms, view: map<Place, Presence>, room: string, user: string)
    requires NoEmptyRoom(rooms) && Same(rooms, view) && room in rooms
    ensures var rest := rooms[room] - {user};
            if rest == map[] then Same(rooms - {room}, view - {(room, user)})
            else Same(rooms[room := rest], view - {(room, user)}) && NoEmptyRoom(rooms[room := rest])
  {
    var rest, after := rooms[room] - {user}, view - {(room, user)};
    forall r, u
      ensures Shown(after, (r, u)) == if r == room && u == user then None else Lookup(rooms, r, u)
    {
      assert Lookup(rooms, r, u) == Shown(view, (r, u));
    }
    if rest == map[] {
      forall r, u
        ensures Lookup(rooms - {room}, r, u) == Shown(after, (r, u))
      {
        assert u in rest <==> u in rooms[room] && u != user;
      }
    } else {
      forall r, u
        ensures Lookup(rooms[room := rest], r, u) == Shown(after, (r, u))
      {
      }
    }
  }

  class Replica {
    const self: string
    var versions: map<string, int>
    var rooms: Rooms
    ghost var view: map<Place, Presence>
    ghost var handled: seq<Update>

    ghost predicate Valid()
      reads this
    {
      NoEmptyRoom(rooms) && Same(rooms, view)
    }

    ghost function Abs(): State
      reads this
    {
      State(versions, view, handled)
    }

    constructor (self: string)
      ensures this.self == self && Valid() && Abs() == INIT
    {
      this.self := self;
      versions, rooms, view, handled := map[], map[], map[], [];
    }

    method UpdateView(p: Presence)
      requires Valid()
      modifies this`rooms, this`view
      ensures Valid() && view == Show(old(view), p)
    {
      var room := if p.room in rooms then rooms[p.room] else map[];
      assert Lookup(rooms, p.room, p.user) == Shown(view, (p.room, p.user));
      view := Show(view, p);
      if p.user in room && room[p.user].version > p.version {
        return;
      }
      rooms := rooms[p.room := room[p.user := p]];
      assert p.user in rooms[p.room];
    }

    method RemoveFromView(room: string, user: string)
      requires Valid()
      modifies this`rooms, this`view
      ensures Valid() && view == old(view) - {(room, user)}
    {
      if room in rooms {
        var rest := rooms[room] - {user};
        RestShows(rooms, view, room, user);
        if |rest| == 0 {
          rooms := rooms - {room};
        } else {
          rooms := rooms[room := rest];
        }
      } else {
        assert Lookup(rooms, room, user) == Shown(view, (room, user));
        assert view - {(room, user)} == view;
      }
      view := view - {(room, user)};
    }

    method OnReplicated(p: Presence)
      requires Valid()
      modifies this`rooms, this`view
      ensures Valid() && view == Handle(old(view), p)
    {
      if p.left {
        RemoveFromView(p.room, p.user);
      } else {
        UpdateView(p);
      }
    }

    method AcceptVersion(id: string, v: int) returns (ok: bool)
      modifies this`versions
      ensures ok <==> v > Seen(old(versions), id)
      ensures versions == if ok then old(versions)[id := v] else old(versions)
    {
      if v <= (if id in versions then versions[id] else 0) {
        return false;
      }
      versions := versions[id := v];
      return true;
    }

    method RecordVersion(id: string, v: int)
      modifies this`versions
      ensures versions == if v > Seen(old(versions), id) then old(versions)[id := v] else old(versions)
    {
      if v > (if id in versions then versions[id] else 0) {
        versions := versions[id := v];
      }
    }

    method Apply(u: Update)
      requires Valid()
      modifies this
      ensures Valid() && Abs() == Deliver(self, old(Abs()), u)
    {
      if u.nodeId == self {
        return;
      }
      var ok := AcceptVersion(u.id, u.version);
      if !ok {
        return;
      }
      OnReplicated(u.payload);
      handled := handled + [u];
    }

    /** Announce, or Leave when the presence is a departure. */
    method Broadcast(p: Presence)
      requires Valid()
      modifies this
      ensures Valid() && Abs() == Local(old(Abs()), p)
    {
      OnReplicated(p);
      RecordVersion(IdOf(p.room, p.user), p.version);
    }
  }
}
