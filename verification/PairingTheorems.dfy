/** What pairing keeps over every run of the server's account, child, robot and code
    endpoints, in any order. */
module PairingTheorems {
  import opened Basics
  import opened Wrappers
  import opened Text
  import opened Pairing

  // ----- runs ------------------------------------------------------------------------------

  datatype Table = ChildRows | RobotRows | CodeRows | UserRow

  /** Every write to the four tables. `Purge` is one statement of deleting an account;
      `Edit` replaces the identity a record names, when the edit carries one. */
  datatype Step =
    | Registers(code: Id, uid: Id, child: Option<Id>)
    | Scans(rid: Id, uid: Id, child: Option<Id>, mqtt: string, code: Id)
    | Claims(uid: Id, device: string, kid: Id, rid: Id)
    | Unpairs(rid: Id, uid: Id)
    | Edits(rid: Id, uid: Id, renamed: Option<string>)
    | AddsUser(uid: Id)
    | AddsChild(cid: Id, uid: Id)
    | RemovesChild(cid: Id, uid: Id)
    | Purges(uid: Id, table: Table)

  function Edited(robots: seq<Robot>, rid: Id, uid: Id, mqtt: string): seq<Robot> {
    seq(|robots|, i requires 0 <= i < |robots| =>
      if robots[i].id == rid && robots[i].user == uid then robots[i].(mqtt := mqtt) else robots[i])
  }

  function UserIs(uid: Id): Robot -> bool {
    (r: Robot) => r.user == uid
  }

  function OthersRobots(robots: seq<Robot>, uid: Id): seq<Robot> {
    Rejecting(UserIs(uid), robots)
  }

  function NextRobots(db: Tables, step: Step): seq<Robot> {
    match step
    case Scans(rid, uid, child, mqtt, code) => Bind(db, rid, uid, child, mqtt, code).0.robots
    case Claims(uid, device, kid, rid) => Claim(db, uid, device, kid, rid).0.robots
    case Unpairs(rid, uid) => Unpair(db, rid, uid).0.robots
    case Edits(rid, uid, Some(mqtt)) => Edited(db.robots, rid, uid, mqtt)
    case Purges(uid, RobotRows) => OthersRobots(db.robots, uid)
    case _ => db.robots
  }

  function NextCodes(db: Tables, step: Step): map<Id, Code> {
    match step
    case Registers(code, uid, child) => Register(db, code, uid, child).codes
    case Scans(rid, uid, child, mqtt, code) => Bind(db, rid, uid, child, mqtt, code).0.codes
    case Unpairs(rid, uid) => Unpair(db, rid, uid).0.codes
    case Purges(uid, CodeRows) => map h | h in db.codes && db.codes[h].user != uid :: db.codes[h]
    case _ => db.codes
  }

  function NextChildren(db: Tables, step: Step): seq<Child> {
    match step
    case Claims(uid, device, kid, rid) => Claim(db, uid, device, kid, rid).0.children
    case AddsChild(cid, uid) => if HasChild(db.children, cid) then db.children else db.children + [Child(cid, uid)]
    case RemovesChild(cid, uid) => Rejecting((c: Child) => c.id == cid && c.user == uid, db.children)
    case Purges(uid, ChildRows) => Rejecting((c: Child) => c.user == uid, db.children)
    case _ => db.children
  }

  function NextUsers(db: Tables, step: Step): map<Id, User> {
    match step
    case Claims(uid, device, kid, rid) => Claim(db, uid, device, kid, rid).0.users
    case AddsUser(uid) => if uid in db.users then db.users else db.users[uid := User("")]
    case Purges(uid, UserRow) => db.users - {uid}
    case _ => db.users
  }

  function Do(db: Tables, step: Step): Tables {
    Tables(NextUsers(db, step), NextChildren(db, step), NextRobots(db, step), NextCodes(db, step))
  }

  function RunAll(db: Tables, steps: seq<Step>): Tables
    decreases |steps|
  {
    if steps == [] then db else RunAll(Do(db, steps[0]), steps[1..])
  }

  // ----- one identity, one account ----------------------------------------------------------------

  ghost predicate Exclusive(robots: seq<Robot>) {
    forall i, j :: 0 <= i < |robots| && 0 <= j < |robots| && Identity(robots[i]) == Identity(robots[j]) != ""
      ==> robots[i].user == robots[j].user
  }

  lemma AppendExclusive(robots: seq<Robot>, row: Robot)
    requires Exclusive(robots)
    ensures Exclusive(robots + [row]) <==> Identity(row) == "" || !NamedElsewhere(robots, row.user, Identity(row))
  {
    var all := robots + [row];
    assert all[|robots|] == row;
    assert forall i :: 0 <= i < |robots| ==> all[i] == robots[i];
    if NamedElsewhere(robots, row.user, Identity(row)) && Identity(row) != "" {
      var i :| 0 <= i < |robots| && robots[i].user != row.user && Identity(robots[i]) == Identity(row);
      assert Identity(all[i]) == Identity(all[|robots|]) != "" && all[i].user != all[|robots|].user;
    }
  }

  lemma ExclusiveSubset(robots: seq<Robot>, fewer: seq<Robot>)
    requires Exclusive(robots) && forall r :: r in fewer ==> r in robots
    ensures Exclusive(fewer)
  {
    forall i, j | 0 <= i < |fewer| && 0 <= j < |fewer| && Identity(fewer[i]) == Identity(fewer[j]) != ""
      ensures fewer[i].user == fewer[j].user
    {
      assert fewer[i] in robots && fewer[j] in robots;
    }
  }

  lemma {:induction false} WithoutSubset(robots: seq<Robot>, rid: Id, uid: Id)
    ensures forall r :: r in Without(robots, rid, uid) <==> r in robots && !(r.id == rid && r.user == uid)
  {
    if robots != [] {
      WithoutSubset(robots[..|robots| - 1], rid, uid);
      assert robots == robots[..|robots| - 1] + [robots[|robots| - 1]];
    }
  }

  lemma {:induction false} OthersSubset(robots: seq<Robot>, uid: Id)
    ensures forall r :: r in OthersRobots(robots, uid) <==> r in robots && r.user != uid
  {
    if robots != [] {
      OthersSubset(robots[..|robots| - 1], uid);
      assert robots == robots[..|robots| - 1] + [robots[|robots| - 1]];
    }
  }

  lemma {:induction false} RobotsOfAre(robots: seq<Robot>, uid: Id)
    ensures forall r :: r in RobotsOf(robots, uid) <==> r in robots && r.user == uid
  {
    if robots != [] {
      RobotsOfAre(robots[..|robots| - 1], uid);
      assert robots == robots[..|robots| - 1] + [robots[|robots| - 1]];
    }
  }

  lemma {:induction false} FirstNamingIs(robots: seq<Robot>, name: string)
    ensures FirstNaming(robots, name).Some? <==> exists r :: r in robots && Identity(r) == name
    ensures var f := FirstNaming(robots, name); f.Some? ==> f.value in robots && Identity(f.value) == name
  {
    if robots != [] {
      FirstNamingIs(robots[1..], name);
      assert robots == [robots[0]] + robots[1..];
    }
  }

  lemma {:induction false} OwnedRobotIs(robots: seq<Robot>, rid: Id, uid: Id)
    ensures OwnedRobot(robots, rid, uid).Some? <==> exists r :: r in robots && r.id == rid && r.user == uid
    ensures var f := OwnedRobot(robots, rid, uid); f.Some? ==> f.value in robots && f.value.id == rid && f.value.user == uid
  {
    if robots != [] {
      OwnedRobotIs(robots[1..], rid, uid);
      assert robots == [robots[0]] + robots[1..];
    }
  }

  /** The new record's key is free, and the account has a child or can be given one: the child's
      key is free too, and the account exists. */
  ghost predicate CanCreate(db: Tables, uid: Id, kid: Id, rid: Id) {
    && (forall r :: r in db.robots ==> r.id != rid)
    && ((exists c :: c in db.children && c.user == uid) || (uid in db.users && forall c :: c in db.children ==> c.id != kid))
  }

  lemma {:induction false} HasChildOf(children: seq<Child>, uid: Id)
    ensures FirstChild(children, uid).Some? <==> exists c :: c in children && c.user == uid
  {
    if children != [] {
      HasChildOf(children[1..], uid);
      assert children == [children[0]] + children[1..];
    }
  }

  lemma CreateIs(db: Tables, uid: Id, kid: Id, rid: Id)
    ensures CanCreate(db, uid, kid, rid) <==> WithChild(db, uid, kid).Some? && !HasRobot(db.robots, rid)
  {
    HasChildOf(db.children, uid);
    assert HasRobot(db.robots, rid) <==> exists r :: r in db.robots && r.id == rid;
    assert HasChild(db.children, kid) <==> exists c :: c in db.children && c.id == kid;
  }

  /** Why a claim answers what it answers. */
  lemma ClaimOutcome(db: Tables, uid: Id, device: string, kid: Id, rid: Id)
    ensures var (db', o) := Claim(db, uid, device, kid, rid);
            var mineNames := exists r :: r in db.robots && r.user == uid && Identity(r) == device;
            var theirsNames := exists r :: r in db.robots && r.user != uid && Identity(r) == device;
            var mineAny := exists r :: r in db.robots && r.user == uid;
            && (o.Exists? <==> mineNames)
            && (o.Taken? <==> !mineNames && theirsNames)
            && (o.Occupied? <==> !mineNames && !theirsNames && mineAny)
            && (o.Created? || o.Failed? <==> !theirsNames && !mineAny)
            && (o.Exists? || o.Occupied? ==> o.row in db.robots && o.row.user == uid)
            && (o.Exists? ==> Identity(o.row) == device)
            && (!o.Created? ==> db' == db)
            && (o.Created? ==> CanCreate(db, uid, kid, rid)) && (o.Failed? ==> !CanCreate(db, uid, kid, rid))
  {
    var mine := RobotsOf(db.robots, uid);
    RobotsOfAre(db.robots, uid);
    FirstNamingIs(mine, device);
    CreateIs(db, uid, kid, rid);
    if Named(db.robots, device) {
      var i :| 0 <= i < |db.robots| && Identity(db.robots[i]) == device;
      assert db.robots[i] in db.robots;
    }
    if mine != [] {
      assert mine[0] in mine;
    }
  }

  /** What an id handed to a claim must satisfy: the record it makes names the trimmed id,
      while the check compares records with the id as given. */
  predicate ClaimSafe(db: Tables, uid: Id, device: string) {
    Strip(device) == "" || !NamedElsewhere(db.robots, uid, Strip(device))
  }

  lemma ClaimKeepsExclusive(db: Tables, uid: Id, device: string, kid: Id, rid: Id)
    requires Exclusive(db.robots)
    ensures var (db', o) := Claim(db, uid, device, kid, rid);
            Exclusive(db'.robots) <==> (o.Created? ==> ClaimSafe(db, uid, device))
  {
    var (db', o) := Claim(db, uid, device, kid, rid);
    if o.Created? {
      AppendExclusive(db.robots, o.row);
    }
  }

  /** The rule a claim is there for holds in every state exactly for the ids that are already
      trimmed, and for blank ones, which name nothing. */
  lemma ClaimRule(device: string)
    ensures (forall db: Tables, uid: Id, kid: Id, rid: Id :: Exclusive(db.robots) ==> Exclusive(Claim(db, uid, device, kid, rid).0.robots))
            <==> Trimmed(device) || Blank(device)
  {
    StripTrimmed(device);
    if Trimmed(device) || Blank(device) {
      forall db: Tables, uid: Id, kid: Id, rid: Id | Exclusive(db.robots)
        ensures Exclusive(Claim(db, uid, device, kid, rid).0.robots)
      {
        ClaimKeepsExclusive(db, uid, device, kid, rid);
        ClaimOutcome(db, uid, device, kid, rid);
      }
    } else {
      UntrimmedClaimShares(device);
    }
  }

  /** Another account's robot, claimed under an id with spaces around it. */
  function Neighbour(device: string): Tables {
    Tables(map["u" := User("")], [], [Robot("r", "v", None, Strip(device))], map[])
  }

  lemma NeighbourClaim(device: string)
    requires !Trimmed(device) && !Blank(device)
    ensures Claim(Neighbour(device), "u", device, "k", "q").0.robots
         == Neighbour(device).robots + [Robot("q", "u", Some("k"), device)]
  {
    var db := Neighbour(device);
    StripTrimmed(device);
    StripTrimmed(Strip(device));
    assert Identity(db.robots[0]) == Strip(device) != device;
    assert db.robots[..0] == [];
    assert RobotsOf(db.robots, "u") == [];
  }

  lemma UntrimmedClaimShares(device: string)
    requires !Trimmed(device) && !Blank(device)
    ensures Exclusive(Neighbour(device).robots)
    ensures !Exclusive(Claim(Neighbour(device), "u", device, "k", "q").0.robots)
  {
    var db := Neighbour(device);
    StripTrimmed(device);
    StripTrimmed(Strip(device));
    NeighbourClaim(device);
    var after := Claim(db, "u", device, "k", "q").0.robots;
    assert Identity(after[0]) == Identity(after[1]) && after[0].user != after[1].user;
  }

  /** An edit checks no other account: it keeps the rule exactly when the identity it writes
      is blank, is named by nobody else, or meets no record. */
  lemma EditKeepsExclusive(db: Tables, rid: Id, uid: Id, mqtt: string)
    requires Exclusive(db.robots)
    ensures Exclusive(Edited(db.robots, rid, uid, mqtt))
            <==> (OwnedRobot(db.robots, rid, uid).Some? && Strip(mqtt) != "" ==> !NamedElsewhere(db.robots, uid, Strip(mqtt)))
  {
    var before, after := db.robots, Edited(db.robots, rid, uid, mqtt);
    OwnedRobotIs(before, rid, uid);
    if OwnedRobot(before, rid, uid).Some? && Strip(mqtt) != "" && NamedElsewhere(before, uid, Strip(mqtt)) {
      var i :| 0 <= i < |before| && before[i].user != uid && Identity(before[i]) == Strip(mqtt);
      var j :| 0 <= j < |before| && before[j].id == rid && before[j].user == uid;
      assert after[i] == before[i] && after[j] == before[j].(mqtt := mqtt);
      assert Identity(after[i]) == Identity(after[j]) != "" && after[i].user != after[j].user;
    } else {
      forall i, j | 0 <= i < |after| && 0 <= j < |after| && Identity(after[i]) == Identity(after[j]) != ""
        ensures after[i].user == after[j].user
      {
        assert after[i].user == before[i].user && after[j].user == before[j].user;
        EditedRow(before, rid, uid, mqtt, i);
        EditedRow(before, rid, uid, mqtt, j);
      }
    }
  }

  lemma EditedRow(before: seq<Robot>, rid: Id, uid: Id, mqtt: string, i: nat)
    requires i < |before|
    ensures Edited(before, rid, uid, mqtt)[i] == before[i]
            || (before[i].user == uid && Identity(Edited(before, rid, uid, mqtt)[i]) == Strip(mqtt) && OwnedRobot(before, rid, uid).Some?)
  {
    OwnedRobotIs(before, rid, uid);
    assert before[i] in before;
  }

  // ----- over runs ---------------------------------------------------------------------------------

  /** Whether a step leaves each identity on one account, from what can be seen before it: a
      claim that will create a record, or an edit that meets one, must name an identity nobody
      else's record names, or none. */
  predicate Safe(db: Tables, step: Step) {
    match step
    case Claims(uid, device, kid, rid) => Claim(db, uid, device, kid, rid).1.Created? ==> ClaimSafe(db, uid, device)
    case Edits(rid, uid, Some(mqtt)) => OwnedRobot(db.robots, rid, uid).Some? ==> ClaimSafe(db, uid, mqtt)
    case _ => true
  }

  /** Every step keeps the rule if and only if it is safe. */
  lemma StepKeepsExclusive(db: Tables, step: Step)
    requires Exclusive(db.robots)
    ensures Exclusive(Do(db, step).robots) <==> Safe(db, step)
  {
    match step
    case Scans(rid, uid, child, mqtt, code) => AppendExclusive(db.robots, Robot(rid, uid, child, mqtt));
    case Claims(uid, device, kid, rid) => ClaimKeepsExclusive(db, uid, device, kid, rid);
    case Edits(rid, uid, Some(mqtt)) => EditKeepsExclusive(db, rid, uid, mqtt);
    case Unpairs(rid, uid) =>
      WithoutSubset(db.robots, rid, uid);
      ExclusiveSubset(db.robots, NextRobots(db, step));
    case Purges(uid, _) =>
      OthersSubset(db.robots, uid);
      ExclusiveSubset(db.robots, NextRobots(db, step));
    case _ =>
  }

  predicate AllSafe(db: Tables, steps: seq<Step>)
    decreases |steps|
  {
    steps == [] || (Safe(db, steps[0]) && AllSafe(Do(db, steps[0]), steps[1..]))
  }

  ghost predicate AlwaysExclusive(db: Tables, steps: seq<Step>)
    decreases |steps|
  {
    Exclusive(db.robots) && (steps == [] || AlwaysExclusive(Do(db, steps[0]), steps[1..]))
  }

  /** Over every run, two records naming the same MQTT identity belong to one account all along
      if and only if every claim and every edit of the run was safe. */
  lemma {:induction false} OneAccountPerIdentity(db: Tables, steps: seq<Step>)
    requires Exclusive(db.robots)
    ensures AlwaysExclusive(db, steps) <==> AllSafe(db, steps)
    ensures AllSafe(db, steps) ==> Exclusive(RunAll(db, steps).robots)
    decreases |steps|
  {
    if steps != [] {
      StepKeepsExclusive(db, steps[0]);
      if Safe(db, steps[0]) {
        OneAccountPerIdentity(Do(db, steps[0]), steps[1..]);
      }
    }
  }

  /** A step that is safe in every state. */
  predicate Careful(step: Step) {
    && (step.Claims? ==> Trimmed(step.device) || Blank(step.device))
    && (step.Edits? ==> step.renamed.None? || Blank(step.renamed.value))
  }

  /** Claims of trimmed ids, and edits that leave the identity alone or clear it, are safe
      wherever they fall. */
  lemma {:induction false} CarefulRunsAreSafe(db: Tables, steps: seq<Step>)
    requires Exclusive(db.robots) && forall k :: 0 <= k < |steps| ==> Careful(steps[k])
    ensures AllSafe(db, steps)
    decreases |steps|
  {
    if steps != [] {
      CarefulIsSafe(db, steps[0]);
      StepKeepsExclusive(db, steps[0]);
      CarefulRunsAreSafe(Do(db, steps[0]), steps[1..]);
    }
  }

  lemma CarefulIsSafe(db: Tables, step: Step)
    requires Careful(step)
    ensures Safe(db, step)
  {
    match step
    case Claims(uid, device, kid, rid) =>
      StripTrimmed(device);
      ClaimOutcome(db, uid, device, kid, rid);
    case Edits(_, _, Some(mqtt)) => StripTrimmed(mqtt);
    case _ =>
  }

  // ----- a code binds once ---------------------------------------------------------------------------

  predicate IsOpen(db: Tables, code: Id) {
    code in db.codes && db.codes[code].state == Open
  }

  predicate Binds(db: Tables, step: Step, code: Id) {
    step.Scans? && step.code == code && Bind(db, step.rid, step.uid, step.child, step.mqtt, code).1 == Bound
  }

  predicate Opens(step: Step, code: Id) {
    step.Registers? && step.code == code
  }

  /** Between registrations a code's row is its own: it is used by the scan it lets in, voided
      by an unpair of its account, deleted with its account, and otherwise stays as it is. */
  lemma CodeMoves(db: Tables, step: Step, code: Id)
    requires code in db.codes && !Opens(step, code)
    ensures var was, now := db.codes[code], Do(db, step).codes;
            if Binds(db, step, code) then was.state == Open && code in now && now[code] == was.(state := Used)
            else if step.Unpairs? && step.uid == was.user && was.state == Open && OwnedRobot(db.robots, step.rid, step.uid).Some?
            then code in now && now[code] == was.(state := Void)
            else if step == Purges(was.user, CodeRows) then code !in now
            else code in now && now[code] == was
  {
  }

  function Count(b: bool): nat {
    if b then 1 else 0
  }

  function TimesBound(db: Tables, steps: seq<Step>, code: Id): nat
    decreases |steps|
  {
    if steps == [] then 0 else Count(Binds(db, steps[0], code)) + TimesBound(Do(db, steps[0]), steps[1..], code)
  }

  function TimesOpened(steps: seq<Step>, code: Id): nat
    decreases |steps|
  {
    if steps == [] then 0 else Count(Opens(steps[0], code)) + TimesOpened(steps[1..], code)
  }

  /** Each registration pays for at most one bound scan, and an open code is one not spent. */
  lemma {:induction false} BoundOncePerRegistration(db: Tables, steps: seq<Step>, code: Id)
    ensures TimesBound(db, steps, code) + Count(IsOpen(RunAll(db, steps), code))
         <= Count(IsOpen(db, code)) + TimesOpened(steps, code)
    decreases |steps|
  {
    if steps != [] {
      BoundOncePerRegistration(Do(db, steps[0]), steps[1..], code);
    }
  }

  /** Registering opens a code whatever became of it: a code that is spent binds nothing, and
      once registered again it binds the next scan exactly when that scan's robot is new and
      on no other account. */
  lemma RegisteringReopens(db: Tables, code: Id, owner: Id, kid: Option<Id>, rid: Id, uid: Id, child: Option<Id>, mqtt: string)
    requires code in db.codes && db.codes[code].state != Open
    ensures Bind(db, rid, uid, child, mqtt, code).1 != Bound
    ensures Bind(Register(db, code, owner, kid), rid, uid, child, mqtt, code).1 == Bound
            <==> !HasRobot(db.robots, rid) && ClaimSafe(db, uid, mqtt)
  {
  }

  /** One registration, and a scan of the code by a new robot that claims no identity. */
  lemma RegisterThenScan(db: Tables, code: Id, uid: Id, rid: Id)
    requires !HasRobot(db.robots, rid)
    ensures var open := Do(db, Registers(code, uid, None));
            && Binds(open, Scans(rid, uid, None, "", code), code)
            && Do(open, Scans(rid, uid, None, "", code)).robots == db.robots + [Robot(rid, uid, None, "")]
  {
  }

  lemma TwoMore(db: Tables, a: Step, b: Step, rest: seq<Step>, code: Id)
    ensures TimesBound(db, [a, b] + rest, code)
         == Count(Binds(db, a, code)) + Count(Binds(Do(db, a), b, code)) + TimesBound(Do(Do(db, a), b), rest, code)
  {
    assert ([a, b] + rest)[1..] == [b] + rest && ([b] + rest)[1..] == rest;
  }

  /** So "at most once" is per registration only. */
  lemma SecondRegistrationBindsAgain()
    ensures var steps := [Registers("c", "u", None), Scans("r", "u", None, "", "c"),
                          Registers("c", "u", None), Scans("q", "u", None, "", "c")];
            TimesBound(Tables(map[], [], [], map[]), steps, "c") == 2
  {
    var db := Tables(map[], [], [], map[]);
    var open, first, second := Registers("c", "u", None), Scans("r", "u", None, "", "c"), Scans("q", "u", None, "", "c");
    RegisterThenScan(db, "c", "u", "r");
    var d2 := Do(Do(db, open), first);
    RegisterThenScan(d2, "c", "u", "q");
    TwoMore(db, open, first, [open, second], "c");
    TwoMore(d2, open, second, [], "c");
    assert [open, second] + [] == [open, second];
    assert [open, first] + [open, second] == [open, first, open, second];
  }

  /** No code the account had open at a successful unpair lets a scan in afterwards, unless an
      app registers it anew. */
  lemma VoidedNeverBinds(db: Tables, rid: Id, uid: Id, steps: seq<Step>, code: Id)
    requires Unpair(db, rid, uid).1.Unpaired? && IsOpen(db, code) && db.codes[code].user == uid
    requires TimesOpened(steps, code) == 0
    ensures TimesBound(Unpair(db, rid, uid).0, steps, code) == 0
  {
    BoundOncePerRegistration(Unpair(db, rid, uid).0, steps, code);
  }

  // ----- claiming --------------------------------------------------------------------------------------

  lemma {:induction false} FirstChildIs(children: seq<Child>, uid: Id)
    ensures var f := FirstChild(children, uid); f.Some? ==> Child(f.value, uid) in children
    ensures FirstChild(children, uid).None? ==> forall c :: c in children ==> c.user != uid
  {
    if children != [] {
      FirstChildIs(children[1..], uid);
      assert children == [children[0]] + children[1..];
    }
  }

  /** A claim that creates a record makes it the account's only robot, bound to a child of the
      account; every other account keeps its robots and children. */
  lemma ClaimMakesTheOnlyRobot(db: Tables, uid: Id, device: string, kid: Id, rid: Id, other: Id)
    requires Claim(db, uid, device, kid, rid).1.Created?
    ensures var (db', o) := Claim(db, uid, device, kid, rid);
            && RobotsOf(db.robots, uid) == [] && RobotsOf(db'.robots, uid) == [o.row]
            && o.row.mqtt == device && o.row.id == rid && !HasRobot(db.robots, rid)
            && o.row.child.Some? && Child(o.row.child.value, uid) in db'.children
            && db.children <= db'.children && db'.codes == db.codes
            && (db'.children != db.children && kid != "" ==>
                  FirstChild(db.children, uid).None? && uid in db'.users && db'.users[uid].activeChild != "")
            && (other != uid ==> RobotsOf(db'.robots, other) == RobotsOf(db.robots, other))
  {
    var (db', o) := Claim(db, uid, device, kid, rid);
    FirstChildIs(db.children, uid);
  }

  /** A repeated claim finds its own record exactly when the id it was given is trimmed; with
      any other it takes its own robot for a different one. */
  lemma ClaimAgain(db: Tables, uid: Id, device: string, kid: Id, rid: Id, kid2: Id, rid2: Id)
    requires Claim(db, uid, device, kid, rid).1.Created?
    ensures var (db', o) := Claim(db, uid, device, kid, rid);
            var (db'', again) := Claim(db', uid, device, kid2, rid2);
            db'' == db' && again == if Trimmed(device) then Exists(o.row) else Occupied(o.row)
  {
    var (db', o) := Claim(db, uid, device, kid, rid);
    ClaimMakesTheOnlyRobot(db, uid, device, kid, rid, uid);
    StripTrimmed(device);
    FirstNamingIs([o.row], device);
    assert o.row in [o.row];
    if !Trimmed(device) {
      assert Strip(device) != device;
      ClaimNamesNobody(db, uid, device, kid, rid);
    }
  }

  lemma ClaimNamesNobody(db: Tables, uid: Id, device: string, kid: Id, rid: Id)
    requires Claim(db, uid, device, kid, rid).1.Created? && Strip(device) != device
    ensures !Named(Claim(db, uid, device, kid, rid).0.robots, device)
  {
    var (db', o) := Claim(db, uid, device, kid, rid);
    assert db'.robots == db.robots + [o.row];
    assert Identity(o.row) == Strip(device);
    assert !Named(db.robots, device);
    forall i | 0 <= i < |db'.robots| ensures Identity(db'.robots[i]) != device {
      if i < |db.robots| {
        assert db'.robots[i] == db.robots[i];
      }
    }
  }

  // ----- unpairing ---------------------------------------------------------------------------------------

  lemma {:induction false} OwnedAfterAbsent(robots: seq<Robot>, row: Robot)
    requires !HasRobot(robots, row.id)
    ensures OwnedRobot(robots + [row], row.id, row.user) == Some(row)
  {
    if robots != [] {
      assert robots[0].id != row.id;
      forall i | 0 <= i < |robots[1..]| ensures robots[1..][i].id != row.id {
        assert robots[1..][i] == robots[i + 1];
      }
      OwnedAfterAbsent(robots[1..], row);
      assert (robots + [row])[1..] == robots[1..] + [row];
    }
  }

  /** Unpairing takes back exactly what the scan bound; the code it spent stays spent and the
      account's other open codes are void. */
  lemma UnpairUndoesBind(db: Tables, rid: Id, uid: Id, child: Option<Id>, mqtt: string, code: Id)
    requires Bind(db, rid, uid, child, mqtt, code).1 == Bound
    ensures var bound := Bind(db, rid, uid, child, mqtt, code).0;
            var (after, o) := Unpair(bound, rid, uid);
            && o.Unpaired? && o.row == Robot(rid, uid, child, mqtt) && o.voided == |OpenCodesOf(bound.codes, uid)|
            && after.robots == db.robots && after.children == db.children && after.users == db.users
            && after.codes.Keys == db.codes.Keys && after.codes[code] == db.codes[code].(state := Used)
            && forall h :: h in db.codes && h != code ==>
                 after.codes[h] == if db.codes[h].user == uid && IsOpen(db, h) then db.codes[h].(state := Void) else db.codes[h]
  {
    var row := Robot(rid, uid, child, mqtt);
    var bound := Bind(db, rid, uid, child, mqtt, code).0;
    OwnedAfterAbsent(db.robots, row);
    RejectingNone(RowIs(rid, uid), db.robots);
    assert (db.robots + [row])[..|db.robots|] == db.robots;
  }

  /** A repeated unpair, or one of another account's robot, changes nothing. */
  lemma UnpairTwice(db: Tables, rid: Id, uid: Id)
    ensures var after := Unpair(db, rid, uid).0;
            Unpair(after, rid, uid) == (after, NoSuchRobot)
  {
    var after := Unpair(db, rid, uid).0;
    WithoutSubset(db.robots, rid, uid);
    OwnedRobotIs(after.robots, rid, uid);
  }
}
