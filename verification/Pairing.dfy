/** Robots, children, pairing codes and the three transactions over them: scanning a code,
    claiming a robot by its MQTT identity, and unpairing. */
module Pairing {
  import opened Basics
  import opened Wrappers
  import opened Text

  // ----- tables ----------------------------------------------------------------------------

  type Id = string

  datatype User = User(activeChild: Id)
  datatype Child = Child(id: Id, user: Id)

  /** A robot record; `mqtt` is the text of its `mqtt-device-id` attribute, empty when unset. */
  datatype Robot = Robot(id: Id, user: Id, child: Option<Id>, mqtt: string)

  datatype CodeState = Open | Used | Void
  datatype Code = Code(user: Id, child: Option<Id>, state: CodeState)

  /** Rows in insertion order; users and codes by primary key. */
  datatype Tables = Tables(users: map<Id, User>, children: seq<Child>, robots: seq<Robot>, codes: map<Id, Code>)

  /** `Failed` is a raised error: a duplicate key or a missing user row. */
  datatype Outcome =
    | Bound | CodeUsed | CodeVoid
    | Taken | Exists(row: Robot) | Occupied(row: Robot) | Created(row: Robot)
    | Unpaired(row: Robot, voided: nat) | NoSuchRobot
    | Failed

  /** The MQTT identity a record names. */
  function Identity(r: Robot): string {
    Strip(r.mqtt)
  }

  // ----- queries ---------------------------------------------------------------------------

  function RobotsOf(robots: seq<Robot>, uid: Id): seq<Robot> {
    if robots == [] then []
    else RobotsOf(robots[..|robots| - 1], uid)
         + (if robots[|robots| - 1].user == uid then [robots[|robots| - 1]] else [])
  }

  function FirstNaming(robots: seq<Robot>, name: string): Option<Robot> {
    if robots == [] then None
    else if Identity(robots[0]) == name then Some(robots[0])
    else FirstNaming(robots[1..], name)
  }

  function FirstChild(children: seq<Child>, uid: Id): Option<Id> {
    if children == [] then None
    else if children[0].user == uid then Some(children[0].id)
    else FirstChild(children[1..], uid)
  }

  predicate HasRobot(robots: seq<Robot>, rid: Id) {
    exists i :: 0 <= i < |robots| && robots[i].id == rid
  }

  predicate HasChild(children: seq<Child>, cid: Id) {
    exists i :: 0 <= i < |children| && children[i].id == cid
  }

  /** Some record of an account other than `uid` names this identity. */
  predicate NamedElsewhere(robots: seq<Robot>, uid: Id, name: string) {
    exists i :: 0 <= i < |robots| && robots[i].user != uid && Identity(robots[i]) == name
  }

  predicate Named(robots: seq<Robot>, name: string) {
    exists i :: 0 <= i < |robots| && Identity(robots[i]) == name
  }

  // ----- the transactions as functions ---------------------------------------------------------

  function Bind(db: Tables, rid: Id, uid: Id, child: Option<Id>, mqtt: string, code: Id): (Tables, Outcome) {
    if code !in db.codes || db.codes[code].state == Void then (db, CodeVoid)
    else if db.codes[code].state == Used then (db, CodeUsed)
    else if Strip(mqtt) != "" && NamedElsewhere(db.robots, uid, Strip(mqtt)) then (db, Taken)
    else if HasRobot(db.robots, rid) then (db, Failed)
    else
      (db.(robots := db.robots + [Robot(rid, uid, child, mqtt)],
           codes := db.codes[code := db.codes[code].(state := Used)]),
       Bound)
  }

  /** The account's first child; an account without one gets `kid`, which becomes the active
      child unless there already is one. */
  function WithChild(db: Tables, uid: Id, kid: Id): Option<(Tables, Id)> {
    match FirstChild(db.children, uid)
    case Some(c) => Some((db, c))
    case None =>
      if HasChild(db.children, kid) || uid !in db.users then None
      else
        var users := if db.users[uid].activeChild == "" then db.users[uid := User(kid)] else db.users;
        Some((db.(children := db.children + [Child(kid, uid)], users := users), kid))
  }

  function Claim(db: Tables, uid: Id, device: string, kid: Id, rid: Id): (Tables, Outcome) {
    var mine := RobotsOf(db.robots, uid);
    var same := FirstNaming(mine, device);
    if same.Some? then (db, Exists(same.value))
    else if Named(db.robots, device) then (db, Taken)
    else if mine != [] then (db, Occupied(mine[0]))
    else
      match WithChild(db, uid, kid)
      case None => (db, Failed)
      case Some((db', child)) =>
        if HasRobot(db.robots, rid) then (db, Failed)
        else
          var row := Robot(rid, uid, Some(child), device);
          (db'.(robots := db.robots + [row]), Created(row))
  }

  function OwnedRobot(robots: seq<Robot>, rid: Id, uid: Id): Option<Robot> {
    if robots == [] then None
    else if robots[0].id == rid && robots[0].user == uid then Some(robots[0])
    else OwnedRobot(robots[1..], rid, uid)
  }

  function RowIs(rid: Id, uid: Id): Robot -> bool {
    (r: Robot) => r.id == rid && r.user == uid
  }

  function Without(robots: seq<Robot>, rid: Id, uid: Id): seq<Robot> {
    Rejecting(RowIs(rid, uid), robots)
  }

  function OpenCodesOf(codes: map<Id, Code>, uid: Id): set<Id> {
    set h | h in codes && codes[h].user == uid && codes[h].state == Open
  }

  function Voided(codes: map<Id, Code>, uid: Id): map<Id, Code> {
    map h | h in codes :: if codes[h].user == uid && codes[h].state == Open then codes[h].(state := Void) else codes[h]
  }

  function Unpair(db: Tables, rid: Id, uid: Id): (Tables, Outcome) {
    match OwnedRobot(db.robots, rid, uid)
    case None => (db, NoSuchRobot)
    case Some(row) =>
      (db.(robots := Without(db.robots, rid, uid), codes := Voided(db.codes, uid)),
       Unpaired(row, |OpenCodesOf(db.codes, uid)|))
  }

  /** An app registers a code; registering it again opens it again. */
  function Register(db: Tables, code: Id, uid: Id, child: Option<Id>): Tables {
    db.(codes := db.codes[code := Code(uid, child, Open)])
  }

  // ----- the store object ------------------------------------------------------------------------

  class Database {
    var users: map<Id, User>
    var children: seq<Child>
    var robots: seq<Robot>
    var codes: map<Id, Code>

    constructor ()
      ensures State() == Tables(map[], [], [], map[])
    {
      users, children, robots, codes := map[], [], [], map[];
    }

    ghost function State(): Tables
      reads this
    {
      Tables(users, children, robots, codes)
    }

    method NamesElsewhere(uid: Id, name: string) returns (found: bool)
      ensures found == NamedElsewhere(robots, uid, name)
    {
      found := false;
      var i := 0;
      while i < |robots| && !found
        invariant 0 <= i <= |robots|
        invariant found == exists j :: 0 <= j < i && robots[j].user != uid && Identity(robots[j]) == name
      {
        found := robots[i].user != uid && Identity(robots[i]) == name;
        i := i + 1;
      }
    }

    method InsertRobot(row: Robot) returns (ok: bool)
      modifies this`robots
      ensures ok == !HasRobot(old(robots), row.id)
      ensures robots == if ok then old(robots) + [row] else old(robots)
    {
      ok := !HasRobot(robots, row.id);
      if ok {
        robots := robots + [row];
      }
    }

    method BindScannedRobot(rid: Id, uid: Id, child: Option<Id>, mqtt: string, code: Id) returns (o: Outcome)
      modifies this`robots, this`codes
      ensures (State(), o) == Bind(old(State()), rid, uid, child, mqtt, code)
    {
      var name := Strip(mqtt);
      if code !in codes || codes[code].state == Void {
        return CodeVoid;
      }
      if codes[code].state != Open {
        return CodeUsed;
      }
      if name != "" {
        var taken := NamesElsewhere(uid, name);
        if taken {
          return Taken;
        }
      }
      var ok := InsertRobot(Robot(rid, uid, child, mqtt));
      if !ok {
        return Failed;
      }
      codes := codes[code := codes[code].(state := Used)];
      return Bound;
    }

    /** The first child of the account, inserted when there is none. */
    method EnsureChild(uid: Id, kid: Id) returns (child: Option<Id>)
      modifies this`children, this`users
      ensures child == var w := WithChild(old(State()), uid, kid); if w.Some? then Some(w.value.1) else None
      ensures child.Some? ==> State() == WithChild(old(State()), uid, kid).value.0
    {
      child := FirstChild(children, uid);
      if child.Some? {
        return;
      }
      if HasChild(children, kid) {
        return None;
      }
      children := children + [Child(kid, uid)];
      if uid !in users {
        return None;
      }
      if users[uid].activeChild == "" {
        users := users[uid := User(kid)];
      }
      return Some(kid);
    }

    /** A failure after the child was inserted rolls the whole transaction back. */
    method ClaimRobot(uid: Id, device: string, kid: Id, rid: Id) returns (o: Outcome)
      modifies this`robots, this`children, this`users
      ensures (State(), o) == Claim(old(State()), uid, device, kid, rid)
    {
      var mine := RobotsOf(robots, uid);
      var same := FirstNaming(mine, device);
      if same.Some? {
        return Exists(same.value);
      }
      if Named(robots, device) {
        return Taken;
      }
      if mine != [] {
        return Occupied(mine[0]);
      }
      var savedChildren, savedUsers := children, users;
      var child := EnsureChild(uid, kid);
      if child.Some? {
        var row := Robot(rid, uid, child, device);
        var ok := InsertRobot(row);
        if ok {
          return Created(row);
        }
      }
      children, users := savedChildren, savedUsers;
      return Failed;
    }

    method UnpairRobot(rid: Id, uid: Id) returns (o: Outcome)
      modifies this`robots, this`codes
      ensures (State(), o) == Unpair(old(State()), rid, uid)
    {
      var row := OwnedRobot(robots, rid, uid);
      if row.None? {
        return NoSuchRobot;
      }
      robots := Without(robots, rid, uid);
      var open := OpenCodesOf(codes, uid);
      codes := Voided(codes, uid);
      return Unpaired(row.value, |open|);
    }

    method RegisterPairing(code: Id, uid: Id, child: Option<Id>)
      modifies this`codes
      ensures State() == Register(old(State()), code, uid, child)
    {
      codes := codes[code := Code(uid, child, Open)];
    }
  }
}
