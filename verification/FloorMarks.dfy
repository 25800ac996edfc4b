/** What every mark of a floor line is, stated of the tokens it emits: which gesture stands
    before which word, where the line pauses, and what it opens and closes with. */
module FloorMarks {
  import opened Basics
  import opened Text
  import opened Segmenter
  import opened Wrappers
  import opened Speech
  import opened Vocab
  import opened AutoMarkup
  import opened Clauses
  import opened ClauseTheorems
  import opened Floor
  import opened FloorTheorems

  // ----- which gestures a sentence gets ------------------------------------------------------

  function Below(at: map<nat, Gesture>, k: nat): set<nat> {
    set j | j in at && j < k
  }

  /** Neither cap is used up by the gestures before word `k`. */
  predicate RoomAt(at: map<nat, Gesture>, k: nat, emitted: nat) {
    |Below(at, k)| < MAX_GESTURES_PER_SENTENCE && emitted + |Below(at, k)| < MAX_GESTURES_PER_LINE
  }

  predicate Shows(at: map<nat, Gesture>, k: nat, g: Gesture) {
    k in at && at[k] == g
  }

  /** Counters that agree with the gestures placed so far, all of them before word `lo`. */
  ghost predicate Fits(p: Placed, lo: nat, emitted: nat) {
    && p.perSentence == |p.at| && p.emitted == emitted + |p.at|
    && forall k :: k in p.at ==> k < lo
  }

  lemma RoomIsRoom(p: Placed, lo: nat, k: nat, emitted: nat)
    requires Fits(p, lo, emitted) && lo <= k
    ensures RoomAt(p.at, k, emitted) <==> p.Room()
  {
    assert Below(p.at, k) == p.at.Keys;
  }

  lemma AddFits(p: Placed, lo: nat, emitted: nat, k: nat, g: Gesture, hi: nat)
    requires Fits(p, lo, emitted) && lo <= k < hi
    ensures Fits(p.Add(k, g), hi, emitted)
  {
    assert p.at[k := g].Keys == p.at.Keys + {k};
  }

  /** The two placements agree before word `lo`. */
  ghost predicate Agree(p: map<nat, Gesture>, q: map<nat, Gesture>, lo: nat) {
    forall k :: k < lo ==> (k in p <==> k in q) && (k in p ==> p[k] == q[k])
  }

  lemma SameBelow(p: map<nat, Gesture>, q: map<nat, Gesture>, lo: nat, k: nat)
    requires Agree(p, q, lo) && k <= lo
    ensures Below(p, k) == Below(q, k)
  {
  }

  function AfterClause(rules: Rules, words: seq<string>, a: nat, b: nat, p: Placed): Placed
    requires a < b <= |words|
  {
    var found := ClauseGesture(rules, words, a, b);
    if found.Some? && found.value.0 !in p.at then p.Add(found.value.0, found.value.1) else p
  }

  lemma AfterClauseFits(rules: Rules, words: seq<string>, a: nat, b: nat, p: Placed, emitted: nat)
    requires a < b <= |words| && Fits(p, a, emitted)
    ensures Fits(AfterClause(rules, words, a, b, p), b, emitted)
    ensures Agree(p.at, AfterClause(rules, words, a, b, p).at, a)
  {
    var found := ClauseGesture(rules, words, a, b);
    if found.Some? {
      AddFits(p, a, emitted, found.value.0, found.value.1, b);
    }
  }

  lemma {:induction false} CarryAgrees(rules: Rules, words: seq<string>, bounds: seq<(nat, nat)>, lo: nat, p: Placed, emitted: nat)
    requires Tiles(bounds, lo, |words|) && lo <= |words| && Fits(p, lo, emitted)
    ensures var q := Carry(rules, words, bounds, lo, p); Agree(p.at, q.at, lo) && Fits(q, |words|, emitted)
    decreases |bounds|
  {
    if bounds != [] && p.Room() {
      AfterClauseFits(rules, words, lo, bounds[0].1, p, emitted);
      CarryAgrees(rules, words, bounds[1..], bounds[0].1, AfterClause(rules, words, lo, bounds[0].1, p), emitted);
    }
  }

  /** Some clause among these cues `g` at word `k`. */
  ghost predicate CuedIn(rules: Rules, words: seq<string>, bounds: seq<(nat, nat)>, k: nat, g: Gesture) {
    exists i :: 0 <= i < |bounds| && Cues(rules, words, bounds[i].0, bounds[i].1, k, g)
  }

  lemma CuedInFirst(rules: Rules, words: seq<string>, bounds: seq<(nat, nat)>, k: nat, g: Gesture)
    requires bounds != []
    ensures CuedIn(rules, words, bounds, k, g)
            <==> Cues(rules, words, bounds[0].0, bounds[0].1, k, g) || CuedIn(rules, words, bounds[1..], k, g)
  {
    if i :| 0 <= i < |bounds[1..]| && Cues(rules, words, bounds[1..][i].0, bounds[1..][i].1, k, g) {
      assert bounds[i + 1] == bounds[1..][i];
    }
    if i :| 1 <= i < |bounds| && Cues(rules, words, bounds[i].0, bounds[i].1, k, g) {
      assert bounds[i] == bounds[1..][i - 1];
    }
  }

  lemma {:induction false} CuedFrom(rules: Rules, words: seq<string>, bounds: seq<(nat, nat)>, lo: nat, k: nat, g: Gesture)
    requires Tiles(bounds, lo, |words|) && CuedIn(rules, words, bounds, k, g)
    ensures lo <= k
    decreases |bounds|
  {
    CuedInFirst(rules, words, bounds, k, g);
    if !Cues(rules, words, bounds[0].0, bounds[0].1, k, g) {
      CuedFrom(rules, words, bounds[1..], bounds[0].1, k, g);
    }
  }

  /** The gesture of the first clause. */
  lemma FirstClauseShows(rules: Rules, words: seq<string>, a: nat, b: nat, p: Placed, emitted: nat, k: nat, g: Gesture)
    requires a <= k < b <= |words| && Fits(p, a, emitted) && p.Room()
    ensures var q := AfterClause(rules, words, a, b, p);
            Shows(q.at, k, g) <==> RoomAt(q.at, k, emitted) && Cues(rules, words, a, b, k, g)
  {
    ClauseGestureIs(rules, words, a, b, k, g);
    var q := AfterClause(rules, words, a, b, p);
    if ClauseGesture(rules, words, a, b) == Some((k, g)) {
      assert Below(q.at, k) == p.at.Keys;
    }
  }

  /** Which words the clause cues reach: from `lo` on, a word shows a cue if and only if a
      clause cues it there and the caps leave room. */
  lemma {:induction false} CarryShows(rules: Rules, words: seq<string>, bounds: seq<(nat, nat)>, lo: nat, p: Placed,
                                      emitted: nat, k: nat, g: Gesture)
    requires Tiles(bounds, lo, |words|) && lo <= k && lo <= |words| && Fits(p, lo, emitted)
    ensures var q := Carry(rules, words, bounds, lo, p);
            Shows(q.at, k, g) <==> RoomAt(q.at, k, emitted) && CuedIn(rules, words, bounds, k, g)
    decreases |bounds|
  {
    if bounds != [] && p.Room() {
      var b := bounds[0].1;
      var p' := AfterClause(rules, words, lo, b, p);
      var q := Carry(rules, words, bounds[1..], b, p');
      AfterClauseFits(rules, words, lo, b, p, emitted);
      CarryAgrees(rules, words, bounds[1..], b, p', emitted);
      CuedInFirst(rules, words, bounds, k, g);
      if k < b {
        FirstClauseShows(rules, words, lo, b, p, emitted, k, g);
        SameBelow(p'.at, q.at, b, k);
        if CuedIn(rules, words, bounds[1..], k, g) {
          CuedFrom(rules, words, bounds[1..], b, k, g);
        }
      } else {
        CarryShows(rules, words, bounds[1..], b, p', emitted, k, g);
      }
    } else if bounds != [] {
      RoomIsRoom(p, lo, k, emitted);
    }
  }

  // ----- talking gestures ------------------------------------------------------------------------

  lemma TryTalkFits(rules: Rules, si: nat, pos: nat, p: Placed, emitted: nat)
    requires Fits(p, pos, emitted)
    ensures Fits(TryTalk(rules, si, pos, p), pos + 1, emitted) && Agree(p.at, TryTalk(rules, si, pos, p).at, pos)
  {
    AddFits(p, pos, emitted, pos, Talk, pos + 1);
  }

  lemma FitsLater(p: Placed, lo: nat, hi: nat, emitted: nat)
    requires Fits(p, lo, emitted) && lo <= hi
    ensures Fits(p, hi, emitted)
  {
  }

  lemma {:induction false} TalkAgrees(rules: Rules, si: nat, pos: nat, n: nat, p: Placed, emitted: nat)
    requires Fits(p, pos, emitted)
    ensures Agree(p.at, TalkFrom(rules, si, pos, n, p).at, pos)
    decreases n - pos
  {
    if pos + TALK_TAIL < n && p.Room() {
      var p' := TryTalk(rules, si, pos, p);
      TryTalkFits(rules, si, pos, p, emitted);
      FitsLater(p', pos + 1, pos + TALK_EVERY, emitted);
      TalkAgrees(rules, si, pos + TALK_EVERY, n, p', emitted);
    }
  }

  lemma StrideEquals(last: nat, k: nat)
    ensures last < k && (k - last) % TALK_EVERY == 0
            <==> last + TALK_EVERY <= k && (k - (last + TALK_EVERY)) % TALK_EVERY == 0
  {
  }

  /** The first of them. */
  lemma TalkShowsHere(rules: Rules, si: nat, pos: nat, n: nat, p: Placed, q: map<nat, Gesture>, emitted: nat, k: nat, g: Gesture)
    requires Fits(p, pos, emitted) && pos + TALK_TAIL < n && p.Room() && pos <= k < pos + TALK_EVERY
    requires Agree(TryTalk(rules, si, pos, p).at, q, pos + TALK_EVERY)
    ensures Shows(q, k, g) <==> g == Talk && k == pos && RoomAt(q, k, emitted) && rules.roll(si, k)
  {
    var p' := TryTalk(rules, si, pos, p);
    TryTalkFits(rules, si, pos, p, emitted);
    SameBelow(p'.at, q, pos + TALK_EVERY, k);
    if k == pos {
      SameBelow(p.at, p'.at, pos, pos);
      RoomIsRoom(p, pos, pos, emitted);
    }
  }

  /** Which words the talking gestures reach from `pos` on. */
  lemma {:induction false} TalkShows(rules: Rules, si: nat, pos: nat, n: nat, p: Placed, emitted: nat, k: nat, g: Gesture)
    requires Fits(p, pos, emitted) && pos <= k
    ensures var q := TalkFrom(rules, si, pos, n, p);
            Shows(q.at, k, g)
            <==> g == Talk && RoomAt(q.at, k, emitted) && k + TALK_TAIL < n && rules.roll(si, k) && (k - pos) % TALK_EVERY == 0
    decreases n - pos
  {
    if pos + TALK_TAIL < n && p.Room() {
      var p', next := TryTalk(rules, si, pos, p), pos + TALK_EVERY;
      TryTalkFits(rules, si, pos, p, emitted);
      FitsLater(p', pos + 1, next, emitted);
      StrideEquals(pos, k);
      if k < next {
        TalkAgrees(rules, si, next, n, p', emitted);
        TalkShowsHere(rules, si, pos, n, p, TalkFrom(rules, si, next, n, p').at, emitted, k, g);
      } else {
        TalkShows(rules, si, next, n, p', emitted, k, g);
      }
    } else {
      RoomIsRoom(p, pos, k, emitted);
    }
  }

  // ----- the placement of a sentence, without the loops ---------------------------------------------

  /** Word `a` carries the sentence's last gesture that is not a talking one; 0 if none does. */
  ghost predicate LastCarried(at: map<nat, Gesture>, a: nat) {
    && (a == 0 || (a in at && at[a] != Talk))
    && forall j :: j in at && at[j] != Talk ==> j <= a
  }

  /** A whole number of strides after the last carried gesture. */
  ghost predicate OnStride(at: map<nat, Gesture>, k: nat) {
    exists a: nat :: LastCarried(at, a) && a < k && (k - a) % TALK_EVERY == 0
  }

  ghost predicate ClauseCues(rules: Rules, words: seq<string>, k: nat, g: Gesture) {
    exists a: nat, b: nat :: IsClause(words, a, b) && Cues(rules, words, a, b, k, g)
  }

  /** What may stand before word `k`, caps aside: the hint on the first word of the line; else
      what the word's clause cues; or a talking gesture, on a stride the digest lets through,
      in a long enough sentence and clear of its end. A sentence with a whole-body tree has
      nothing but the hint. */
  ghost predicate Called(rules: Rules, words: seq<string>, si: nat, hint: Option<Gesture>, hasTree: bool,
                         at: map<nat, Gesture>, k: nat, g: Gesture) {
    || (si == 0 && k == 0 && hint == Some(g))
    || (!hasTree && !(si == 0 && hint.Some?) && ClauseCues(rules, words, k, g))
    || (!hasTree && g == Talk && |words| >= TALK_MIN_WORDS && k + TALK_TAIL < |words| && rules.roll(si, k) && OnStride(at, k))
  }

  /** Word `k` shows `g` exactly when that is called for and the caps leave room. */
  ghost predicate Explained(rules: Rules, words: seq<string>, si: nat, emitted: nat, hint: Option<Gesture>, hasTree: bool,
                            at: map<nat, Gesture>, k: nat, g: Gesture) {
    Shows(at, k, g) <==> RoomAt(at, k, emitted) && Called(rules, words, si, hint, hasTree, at, k, g)
  }

  ghost predicate Placement(rules: Rules, words: seq<string>, si: nat, emitted: nat, hint: Option<Gesture>, hasTree: bool,
                            at: map<nat, Gesture>) {
    && (forall k :: k in at ==> k < |words|)
    && forall k: nat, g :: k < |words| ==> Explained(rules, words, si, emitted, hint, hasTree, at, k, g)
  }

  ghost predicate AreClauses(bounds: seq<(nat, nat)>, words: seq<string>) {
    forall a: nat, b: nat :: (a, b) in bounds <==> IsClause(words, a, b)
  }

  lemma CuedIsClauseCue(rules: Rules, words: seq<string>, bounds: seq<(nat, nat)>, k: nat, g: Gesture)
    requires AreClauses(bounds, words)
    ensures CuedIn(rules, words, bounds, k, g) <==> ClauseCues(rules, words, k, g)
  {
    if i :| 0 <= i < |bounds| && Cues(rules, words, bounds[i].0, bounds[i].1, k, g) {
      assert (bounds[i].0, bounds[i].1) in bounds;
    }
    if a: nat, b: nat :| IsClause(words, a, b) && Cues(rules, words, a, b, k, g) {
      var i :| 0 <= i < |bounds| && bounds[i] == (a, b);
      assert Cues(rules, words, bounds[i].0, bounds[i].1, k, g);
    }
  }

  lemma {:induction false} MaxKeyIs(at: map<nat, Gesture>, n: nat)
    requires forall k :: k in at ==> k < n
    ensures var m := MaxKey(at, n); (m == 0 || m in at) && (forall k :: k in at ==> k <= m) && (n > 0 ==> m < n)
  {
    MaxKeyFrom(at, n);
  }

  lemma {:induction false} MaxKeyFrom(at: map<nat, Gesture>, n: nat)
    ensures var m := MaxKey(at, n); (m == 0 || m in at) && (forall k :: k in at && k < n ==> k <= m) && (n > 0 ==> m < n)
  {
    if n > 0 {
      MaxKeyFrom(at, n - 1);
    }
  }

  /** What the carried gestures show. */
  ghost predicate CarriedShows(rules: Rules, words: seq<string>, si: nat, hint: Option<Gesture>, hasTree: bool,
                               at: map<nat, Gesture>, emitted: nat, k: nat, g: Gesture) {
    Shows(at, k, g)
    <==> RoomAt(at, k, emitted)
         && ((si == 0 && k == 0 && hint == Some(g)) || (!hasTree && !(si == 0 && hint.Some?) && ClauseCues(rules, words, k, g)))
  }

  lemma CarriedIs(rules: Rules, words: seq<string>, bounds: seq<(nat, nat)>, si: nat, emitted: nat,
                  hint: Option<Gesture>, hasTree: bool, k: nat, g: Gesture)
    requires Tiles(bounds, 0, |words|) && words != []
    requires AreClauses(bounds, words)
    requires emitted <= MAX_GESTURES_PER_LINE && (si == 0 ==> emitted == 0)
    ensures var c := Carried(rules, words, bounds, si, emitted, hint, hasTree);
            Fits(c, |words|, emitted) && CarriedShows(rules, words, si, hint, hasTree, c.at, emitted, k, g)
  {
    var none := Placed(map[], 0, emitted);
    var c := Carried(rules, words, bounds, si, emitted, hint, hasTree);
    if si == 0 && hint.Some? {
      assert Below(c.at, 0) == {};
    } else if !hasTree {
      CarryAgrees(rules, words, bounds, 0, none, emitted);
      CarryShows(rules, words, bounds, 0, none, emitted, k, g);
      CuedIsClauseCue(rules, words, bounds, k, g);
    }
  }

  /** The carried gestures are not talking ones, the hint aside. */
  lemma CarriedKinds(rules: Rules, words: seq<string>, bounds: seq<(nat, nat)>, si: nat, emitted: nat,
                     hint: Option<Gesture>, hasTree: bool)
    requires Tiles(bounds, 0, |words|) && words != []
    requires emitted <= MAX_GESTURES_PER_LINE && (si == 0 ==> emitted == 0)
    ensures var c := Carried(rules, words, bounds, si, emitted, hint, hasTree).at;
            forall k :: k in c && c[k] == Talk ==> k == 0
  {
    CarriedRules(rules, words, bounds, si, emitted, hint, hasTree);
  }

  /** Adding talking gestures behind them leaves the last carried one where it was. */
  lemma LastCarriedIs(c: map<nat, Gesture>, q: map<nat, Gesture>, last: nat, a: nat)
    requires Agree(c, q, last + TALK_EVERY) && (last == 0 || last in c)
    requires forall k :: k in c ==> k <= last
    requires forall k :: k in c && c[k] == Talk ==> k == 0
    requires forall k :: k in q && last + TALK_EVERY <= k ==> q[k] == Talk
    ensures LastCarried(q, a) <==> a == last
  {
    if last > 0 {
      assert last in q && q[last] != Talk;
    }
    assert forall j :: j in q && q[j] != Talk ==> j < last + TALK_EVERY && j in c;
  }

  lemma OnStrideIs(q: map<nat, Gesture>, last: nat, k: nat)
    requires forall a: nat :: LastCarried(q, a) <==> a == last
    ensures OnStride(q, k) <==> last < k && (k - last) % TALK_EVERY == 0
  {
    assert LastCarried(q, last);
  }

  lemma RoomShrinks(c: map<nat, Gesture>, q: map<nat, Gesture>, k: nat, emitted: nat)
    requires forall j :: j in c ==> j in q
    ensures RoomAt(q, k, emitted) ==> RoomAt(c, k, emitted)
  {
    SubsetSize(Below(c, k), Below(q, k));
  }

  /** Carried gestures `c`, the last of them at word `last`. */
  ghost predicate Carrying(c: Placed, words: seq<string>, emitted: nat, last: nat) {
    && Fits(c, |words|, emitted) && (last == 0 || last in c.at) && (forall j :: j in c.at ==> j <= last)
    && forall j :: j in c.at && c.at[j] == Talk ==> j == 0
  }

  lemma BehindAgrees(rules: Rules, words: seq<string>, si: nat, emitted: nat, c: Placed, last: nat)
    requires Carrying(c, words, emitted, last)
    ensures var pos := last + TALK_EVERY; Fits(c, pos, emitted) && Agree(c.at, TalkFrom(rules, si, pos, |words|, c).at, pos)
  {
    TalkAgrees(rules, si, last + TALK_EVERY, |words|, c, emitted);
  }

  predicate FallsOn(pos: nat, k: nat) {
    pos <= k && (k - pos) % TALK_EVERY == 0
  }

  /** Where talking gestures laid behind them fall. */
  lemma TalkStrides(rules: Rules, words: seq<string>, si: nat, emitted: nat, c: Placed, last: nat, k: nat)
    requires Carrying(c, words, emitted, last)
    ensures OnStride(TalkFrom(rules, si, last + TALK_EVERY, |words|, c).at, k) <==> FallsOn(last + TALK_EVERY, k)
  {
    var pos := last + TALK_EVERY;
    var q := TalkFrom(rules, si, pos, |words|, c).at;
    BehindAgrees(rules, words, si, emitted, c, last);
    TalkOnlyAdds(rules, si, pos, |words|, c);
    forall a: nat ensures LastCarried(q, a) <==> a == last {
      LastCarriedIs(c.at, q, last, a);
    }
    OnStrideIs(q, last, k);
    StrideEquals(last, k);
  }

  /** What stands at word `k` when `cue` says whether it is to carry `g`. */
  ghost predicate ShowsCueOrTalk(rules: Rules, words: seq<string>, si: nat, emitted: nat, q: map<nat, Gesture>,
                                 cue: bool, stride: bool, k: nat, g: Gesture) {
    Shows(q, k, g)
    <==> RoomAt(q, k, emitted) && (cue || (g == Talk && k + TALK_TAIL < |words| && rules.roll(si, k) && stride))
  }

  lemma TalkFar(rules: Rules, words: seq<string>, si: nat, emitted: nat, c: Placed, pos: nat, cue: bool, k: nat, g: Gesture)
    requires Fits(c, pos, emitted) && pos <= k
    requires Shows(c.at, k, g) <==> RoomAt(c.at, k, emitted) && cue
    ensures ShowsCueOrTalk(rules, words, si, emitted, TalkFrom(rules, si, pos, |words|, c).at, cue, (k - pos) % TALK_EVERY == 0, k, g)
  {
    TalkShows(rules, si, pos, |words|, c, emitted, k, g);
    TalkOnlyAdds(rules, si, pos, |words|, c);
    NoCueBehind(c.at, TalkFrom(rules, si, pos, |words|, c).at, emitted, cue, k, g);
  }

  /** Talking gestures from `pos` on, behind carried ones. */
  lemma TalkBehind(rules: Rules, words: seq<string>, si: nat, emitted: nat, c: Placed, pos: nat, cue: bool, k: nat, g: Gesture)
    requires Fits(c, pos, emitted)
    requires Shows(c.at, k, g) <==> RoomAt(c.at, k, emitted) && cue
    ensures ShowsCueOrTalk(rules, words, si, emitted, TalkFrom(rules, si, pos, |words|, c).at, cue, FallsOn(pos, k), k, g)
  {
    if k < pos {
      TalkAgrees(rules, si, pos, |words|, c, emitted);
      ShowsBefore(c.at, TalkFrom(rules, si, pos, |words|, c).at, pos, emitted, cue, k, g);
    } else {
      TalkFar(rules, words, si, emitted, c, pos, cue, k, g);
    }
  }

  lemma ShowsBefore(c: map<nat, Gesture>, q: map<nat, Gesture>, pos: nat, emitted: nat, cue: bool, k: nat, g: Gesture)
    requires Agree(c, q, pos) && k < pos && (Shows(c, k, g) <==> RoomAt(c, k, emitted) && cue)
    ensures Shows(q, k, g) <==> RoomAt(q, k, emitted) && cue
  {
    SameBelow(c, q, pos, k);
  }

  /** A cue that was not carried found no room, and finds none behind the talking gestures. */
  lemma NoCueBehind(c: map<nat, Gesture>, q: map<nat, Gesture>, emitted: nat, cue: bool, k: nat, g: Gesture)
    requires k !in c && (forall j :: j in c ==> j in q) && (Shows(c, k, g) <==> RoomAt(c, k, emitted) && cue)
    ensures RoomAt(q, k, emitted) ==> !cue
  {
    RoomShrinks(c, q, k, emitted);
  }

  /** Everything the talking gestures build on. */
  lemma CarriedLast(rules: Rules, words: seq<string>, bounds: seq<(nat, nat)>, si: nat, emitted: nat,
                    hint: Option<Gesture>, hasTree: bool)
    requires Tiles(bounds, 0, |words|) && words != [] && AreClauses(bounds, words)
    requires emitted <= MAX_GESTURES_PER_LINE && (si == 0 ==> emitted == 0)
    ensures var c := Carried(rules, words, bounds, si, emitted, hint, hasTree);
            Carrying(c, words, emitted, MaxKey(c.at, |words|))
  {
    CarriedKinds(rules, words, bounds, si, emitted, hint, hasTree);
    CarriedIs(rules, words, bounds, si, emitted, hint, hasTree, 0, Talk);
    MaxKeyIs(Carried(rules, words, bounds, si, emitted, hint, hasTree).at, |words|);
  }

  /** A carried placement with the talking gestures behind it. */
  function Behind(rules: Rules, words: seq<string>, si: nat, hasTree: bool, c: Placed): Placed {
    if !hasTree && |words| >= TALK_MIN_WORDS
    then TalkFrom(rules, si, MaxKey(c.at, |words|) + TALK_EVERY, |words|, c) else c
  }

  lemma TalkFromLast(rules: Rules, words: seq<string>, si: nat, emitted: nat, c: Placed, last: nat, cue: bool, k: nat, g: Gesture)
    requires Carrying(c, words, emitted, last)
    requires Shows(c.at, k, g) <==> RoomAt(c.at, k, emitted) && cue
    ensures ShowsCueOrTalk(rules, words, si, emitted, TalkFrom(rules, si, last + TALK_EVERY, |words|, c).at, cue,
                           FallsOn(last + TALK_EVERY, k), k, g)
  {
    BehindAgrees(rules, words, si, emitted, c, last);
    TalkBehind(rules, words, si, emitted, c, last + TALK_EVERY, cue, k, g);
  }

  /** Behind nothing: too short a sentence, or one with a whole-body tree. */
  lemma NoTalk(rules: Rules, words: seq<string>, si: nat, emitted: nat, hint: Option<Gesture>, hasTree: bool,
               at: map<nat, Gesture>, k: nat, g: Gesture)
    requires hasTree || |words| < TALK_MIN_WORDS
    requires CarriedShows(rules, words, si, hint, hasTree, at, emitted, k, g)
    ensures Explained(rules, words, si, emitted, hint, hasTree, at, k, g)
  {
  }

  lemma CueOrTalkExplains(rules: Rules, words: seq<string>, si: nat, emitted: nat, hint: Option<Gesture>,
                          q: map<nat, Gesture>, cue: bool, k: nat, g: Gesture)
    requires |words| >= TALK_MIN_WORDS
    requires cue <==> (si == 0 && k == 0 && hint == Some(g)) || (!(si == 0 && hint.Some?) && ClauseCues(rules, words, k, g))
    requires ShowsCueOrTalk(rules, words, si, emitted, q, cue, OnStride(q, k), k, g)
    ensures Explained(rules, words, si, emitted, hint, false, q, k, g)
  {
  }

  lemma GestureFrom(rules: Rules, words: seq<string>, si: nat, emitted: nat, hint: Option<Gesture>, hasTree: bool, c: Placed,
                    k: nat, g: Gesture)
    requires Carrying(c, words, emitted, MaxKey(c.at, |words|))
    requires CarriedShows(rules, words, si, hint, hasTree, c.at, emitted, k, g)
    ensures Explained(rules, words, si, emitted, hint, hasTree, Behind(rules, words, si, hasTree, c).at, k, g)
  {
    if !hasTree && |words| >= TALK_MIN_WORDS {
      var last := MaxKey(c.at, |words|);
      var cue := (si == 0 && k == 0 && hint == Some(g)) || (!(si == 0 && hint.Some?) && ClauseCues(rules, words, k, g));
      TalkFromLast(rules, words, si, emitted, c, last, cue, k, g);
      TalkStrides(rules, words, si, emitted, c, last, k);
      CueOrTalkExplains(rules, words, si, emitted, hint, Behind(rules, words, si, hasTree, c).at, cue, k, g);
    } else {
      NoTalk(rules, words, si, emitted, hint, hasTree, c.at, k, g);
    }
  }

  lemma GestureIs(rules: Rules, words: seq<string>, bounds: seq<(nat, nat)>, si: nat, emitted: nat,
                  hint: Option<Gesture>, hasTree: bool, c: Placed, k: nat, g: Gesture)
    requires Tiles(bounds, 0, |words|) && words != [] && AreClauses(bounds, words)
    requires emitted <= MAX_GESTURES_PER_LINE && (si == 0 ==> emitted == 0)
    requires c == Carried(rules, words, bounds, si, emitted, hint, hasTree)
    ensures Explained(rules, words, si, emitted, hint, hasTree, Behind(rules, words, si, hasTree, c).at, k, g)
  {
    CarriedIs(rules, words, bounds, si, emitted, hint, hasTree, k, g);
    CarriedLast(rules, words, bounds, si, emitted, hint, hasTree);
    GestureFrom(rules, words, si, emitted, hint, hasTree, c, k, g);
  }

  lemma AllExplained(rules: Rules, words: seq<string>, bounds: seq<(nat, nat)>, si: nat, emitted: nat,
                     hint: Option<Gesture>, hasTree: bool, c: Placed)
    requires Tiles(bounds, 0, |words|) && words != [] && AreClauses(bounds, words)
    requires emitted <= MAX_GESTURES_PER_LINE && (si == 0 ==> emitted == 0)
    requires c == Carried(rules, words, bounds, si, emitted, hint, hasTree)
    ensures forall k: nat, g :: Explained(rules, words, si, emitted, hint, hasTree, Behind(rules, words, si, hasTree, c).at, k, g)
  {
    forall k: nat, g ensures Explained(rules, words, si, emitted, hint, hasTree, Behind(rules, words, si, hasTree, c).at, k, g) {
      GestureIs(rules, words, bounds, si, emitted, hint, hasTree, c, k, g);
    }
  }

  lemma PlacedIs(rules: Rules, words: seq<string>, si: nat, emitted: nat, hint: Option<Gesture>, hasTree: bool,
                 at: map<nat, Gesture>)
    requires forall k :: k in at ==> k < |words|
    requires forall k: nat, g :: Explained(rules, words, si, emitted, hint, hasTree, at, k, g)
    ensures Placement(rules, words, si, emitted, hint, hasTree, at)
  {
  }

  lemma GesturesBehind(rules: Rules, words: seq<string>, bounds: seq<(nat, nat)>, si: nat, emitted: nat,
                       hint: Option<Gesture>, hasTree: bool)
    requires Tiles(bounds, 0, |words|)
    ensures Gestures(rules, words, bounds, si, emitted, hint, hasTree)
         == Behind(rules, words, si, hasTree, Carried(rules, words, bounds, si, emitted, hint, hasTree))
  {
  }

  /** The gestures of a sentence, whatever its text, the tables and the hint. */
  lemma GesturesAre(rules: Rules, words: seq<string>, bounds: seq<(nat, nat)>, si: nat, emitted: nat,
                    hint: Option<Gesture>, hasTree: bool)
    requires Tiles(bounds, 0, |words|) && words != [] && AreClauses(bounds, words)
    requires emitted <= MAX_GESTURES_PER_LINE && (si == 0 ==> emitted == 0)
    ensures var p := Gestures(rules, words, bounds, si, emitted, hint, hasTree);
            && Placement(rules, words, si, emitted, hint, hasTree, p.at)
            && p.emitted == emitted + |p.at| <= MAX_GESTURES_PER_LINE
  {
    SentenceRules(rules, words, bounds, si, emitted, hint, hasTree);
    GesturesBehind(rules, words, bounds, si, emitted, hint, hasTree);
    AllExplained(rules, words, bounds, si, emitted, hint, hasTree, Carried(rules, words, bounds, si, emitted, hint, hasTree));
    PlacedIs(rules, words, si, emitted, hint, hasTree, Gestures(rules, words, bounds, si, emitted, hint, hasTree).at);
  }
}
