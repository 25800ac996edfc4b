/** The marks both generators may mint, and the cue tables they consult. A mark is written
    as one tag by an arbitrary minting function, so the theorems do not depend on the JSON
    inside a mark: only on its being a single tag. */
module Vocab {
  import opened Segmenter
  import opened Wrappers
  import opened Speech

  datatype Gesture =
    | NoGesture | Talk | Think | ThinkSubtle | Question | Point
    | PointRight | Self | Higher | Lower | Large | Celebrate

  /** What a word class can cue: neither rest nor the talking gesture. */
  type Cued = g: Gesture | g != NoGesture && g != Talk witness Self

  datatype Mark =
    | Mood(mood: int, strength: int)
    | Tree(gesture: Gesture, behaviour: string)
    | Icons(value: string)
    | IconsClear
    | Audio(sound: string)
    | Spurt(id: string)
    | Break(seconds: real)
    | UselOpen(genre: string)
    | UselClose

  const REST := Tree(NoGesture, "")

  predicate IsMood(m: Mark) { m.Mood? }
  predicate IsArm(m: Mark) { m.Tree? && m.gesture != NoGesture }
  predicate IsBody(m: Mark) { m.Tree? && m.behaviour != "" }

  type Mint = Mark -> TagBody

  const BREAK_TIME := 0.35
  const MAX_INTENSITY := 2
  const TALK_EVERY := 5
  const TALK_MIN_WORDS := 6
  const TALK_TAIL := 2
  const MAX_GESTURES_PER_SENTENCE := 3
  const MAX_GESTURES_PER_LINE := 6
  const MOOD_HAPPY := 1

  /** The regex cue tables, alias maps and the stable digest, as uninterpreted tables. */
  datatype Rules = Rules(
    scoreMood: string -> (int, int),
    moodAlias: string -> Option<int>,
    gestureAlias: string -> Option<Gesture>,
    praise: string -> bool,
    cue: string -> Option<Cued>,
    treeCues: seq<(string -> bool, string)>,
    gazeTrees: set<string>,
    icon: string -> Option<string>,
    interjection: string -> bool,
    roll: (nat, nat) -> bool)

  function ClampIntensity(v: int): (r: int)
    ensures 0 <= r <= MAX_INTENSITY
    ensures 0 <= v <= MAX_INTENSITY ==> r == v
  {
    if v < 0 then 0 else if v > MAX_INTENSITY then MAX_INTENSITY else v
  }
}
