/**
 The text-leakage gate behind generate: render, score, re-roll up to a budget, keep the
 best attempt, judge it, and leave one file or none. Renders, scans and unlinks can fail.
 */
module OcrGate {
  import opened Options

  datatype Detection = Detection(chars: nat, confidence: real)

  datatype Config = Config(
    enabled: bool, maxChars: int, maxAttempts: int, minConfidence: real, enforce: bool, failClosed: bool)

  const DEFAULTS := Config(true, 6, 3, 0.3, true, false)

  datatype Path = Path(id: nat)

  /** The characters counted are None when the scan failed. */
  datatype Attempt = Attempt(seed: int, chars: Option<int>, path: Path)

  datatype Render = Saved | OutOfMemory | Broken

  datatype Status = Disabled | Pass | Fail | Unavailable

  function CountLeaked(found: seq<Detection>, minConfidence: real): (n: nat) {
    if found == [] then 0
    else (if found[0].confidence >= minConfidence then found[0].chars else 0) + CountLeaked(found[1..], minConfidence)
  }

  function Confident(found: seq<Detection>, minConfidence: real): seq<Detection> {
    if found == [] then []
    else (if found[0].confidence >= minConfidence then [found[0]] else []) + Confident(found[1..], minConfidence)
  }

  function SumChars(found: seq<Detection>): nat {
    if found == [] then 0 else found[0].chars + SumChars(found[1..])
  }

  /** Filtering while summing, as the gate does, is summing what was filtered first, as the scan endpoint does. */
  lemma {:induction false} CountIsSumOfConfident(found: seq<Detection>, minConfidence: real)
    ensures CountLeaked(found, minConfidence) == SumChars(Confident(found, minConfidence))
    ensures forall i | 0 <= i < |Confident(found, minConfidence)| ::
              Confident(found, minConfidence)[i].confidence >= minConfidence
    decreases |found|
  {
    if found != [] {
      CountIsSumOfConfident(found[1..], minConfidence);
      if found[0].confidence >= minConfidence {
        assert Confident(found, minConfidence)[1..] == Confident(found[1..], minConfidence);
      } else {
        assert Confident(found, minConfidence) == Confident(found[1..], minConfidence);
      }
    }
  }

  /** One detection counts in full from the threshold on, and not at all below it. */
  lemma {:induction false} EveryDetectionCounts(a: seq<Detection>, d: Detection, b: seq<Detection>, minConfidence: real)
    ensures CountLeaked(a + [d] + b, minConfidence)
         == CountLeaked(a + b, minConfidence) + if d.confidence >= minConfidence then d.chars else 0
    decreases |a|
  {
    if a == [] {
      assert a + [d] + b == [d] + b && a + b == b && ([d] + b)[1..] == b;
    } else {
      assert (a + [d] + b)[1..] == a[1..] + [d] + b && (a + b)[1..] == a[1..] + b;
      EveryDetectionCounts(a[1..], d, b, minConfidence);
    }
  }

  // ---- settings ----

  predicate Sane(gate: Config) {
    gate.maxAttempts >= 1 && gate.maxChars >= 0 && 0.0 <= gate.minConfidence <= 1.0
  }

  type Rows = map<string, string>

  function IntRow(rows: Rows, key: string, parse: string -> Option<int>, default: int): int {
    if key in rows && rows[key] != "" && parse(rows[key]).Some? then parse(rows[key]).value else default
  }

  function RealRow(rows: Rows, key: string, parse: string -> Option<real>, default: real): real {
    if key in rows && rows[key] != "" && parse(rows[key]).Some? then parse(rows[key]).value else default
  }

  /** `truthy` is the test for the four accepted spellings after strip and lower. */
  function BoolRow(rows: Rows, key: string, truthy: string -> bool, default: bool): bool {
    if key in rows && rows[key] != "" then truthy(rows[key]) else default
  }

  function ParseConfig(rows: Rows, parseInt: string -> Option<int>, parseReal: string -> Option<real>,
                       truthy: string -> bool): (gate: Config)
    ensures Sane(gate)
  {
    var chars := IntRow(rows, "image_ocr_gate_max_chars", parseInt, DEFAULTS.maxChars);
    var attempts := IntRow(rows, "image_ocr_gate_max_attempts", parseInt, DEFAULTS.maxAttempts);
    var confidence := RealRow(rows, "image_ocr_gate_min_confidence", parseReal, DEFAULTS.minConfidence);
    Config(BoolRow(rows, "image_ocr_gate_enabled", truthy, DEFAULTS.enabled),
           if chars > 0 then chars else 0,
           if attempts > 1 then attempts else 1,
           if confidence < 0.0 then 0.0 else if confidence > 1.0 then 1.0 else confidence,
           BoolRow(rows, "image_ocr_gate_enforce", truthy, DEFAULTS.enforce),
           BoolRow(rows, "image_ocr_gate_fail_closed_when_unavailable", truthy, DEFAULTS.failClosed))
  }

  /** A setting that does not parse is as good as absent: it degrades its own field and no other. */
  lemma BadSettingIsAbsent(rows: Rows, key: string, parseInt: string -> Option<int>, parseReal: string -> Option<real>,
                           truthy: string -> bool)
    requires key in rows
    requires ((key == "image_ocr_gate_max_chars" || key == "image_ocr_gate_max_attempts") && parseInt(rows[key]).None?)
             || (key == "image_ocr_gate_min_confidence" && parseReal(rows[key]).None?)
             || rows[key] == ""
    ensures ParseConfig(rows, parseInt, parseReal, truthy) == ParseConfig(rows - {key}, parseInt, parseReal, truthy)
  {
    var less := rows - {key};
    assert forall k | k != key :: (k in less <==> k in rows) && (k in less ==> less[k] == rows[k]);
    assert key !in less;
  }

  /** With nothing set, the gate is the default one. */
  lemma NoSettingsAreDefaults(parseInt: string -> Option<int>, parseReal: string -> Option<real>,
                              truthy: string -> bool)
    ensures ParseConfig(map[], parseInt, parseReal, truthy) == DEFAULTS
  {
  }

  /** A setting that parses into its range is taken as it is. */
  lemma GoodSettingsCount(rows: Rows, parseInt: string -> Option<int>, parseReal: string -> Option<real>,
                          truthy: string -> bool, key: string)
    requires key in rows && rows[key] != ""
    ensures var gate, row := ParseConfig(rows, parseInt, parseReal, truthy), rows[key];
            && (key == "image_ocr_gate_max_chars" && parseInt(row).Some? ==>
                  if parseInt(row).value >= 0 then gate.maxChars == parseInt(row).value else gate.maxChars == 0)
            && (key == "image_ocr_gate_max_attempts" && parseInt(row).Some? ==>
                  if parseInt(row).value >= 1 then gate.maxAttempts == parseInt(row).value else gate.maxAttempts == 1)
            && (key == "image_ocr_gate_min_confidence" && parseReal(row).Some? && 0.0 <= parseReal(row).value <= 1.0 ==>
                  gate.minConfidence == parseReal(row).value)
            && (key == "image_ocr_gate_enabled" ==> gate.enabled == truthy(row))
            && (key == "image_ocr_gate_enforce" ==> gate.enforce == truthy(row))
            && (key == "image_ocr_gate_fail_closed_when_unavailable" ==> gate.failClosed == truthy(row))
  {
  }

  // ---- choosing and judging ----

  /** A scored attempt comes before an unscored one, fewer characters before more. */
  predicate Better(a: Option<int>, b: Option<int>) {
    a.Some? && (b.None? || a.value < b.value)
  }

  /** The first attempt none is better than. */
  function PickBest(attempts: seq<Attempt>): (k: nat)
    requires attempts != []
    ensures k < |attempts|
    ensures forall i | 0 <= i < |attempts| :: !Better(attempts[i].chars, attempts[k].chars)
    ensures forall i | 0 <= i < k :: Better(attempts[k].chars, attempts[i].chars)
  {
    if |attempts| == 1 then 0
    else
      var last := |attempts| - 1;
      var k := PickBest(attempts[..last]);
      if Better(attempts[last].chars, attempts[k].chars) then last else k
  }

  function Resolve(best: Attempt, gate: Config): Status {
    if !gate.enabled then Disabled
    else if best.chars.None? then Unavailable
    else if best.chars.value <= gate.maxChars then Pass else Fail
  }

  function Rejects(status: Status, gate: Config): bool {
    match status
    case Fail => gate.enforce
    case Unavailable => gate.enforce && gate.failClosed
    case _ => false
  }

  /** The four verdicts, each for what it says about the kept image. */
  predicate VerdictIsTrue(status: Status, kept: Attempt, gate: Config) {
    && (status.Disabled? <==> !gate.enabled)
    && (status.Unavailable? <==> gate.enabled && kept.chars.None?)
    && (status.Pass? <==> gate.enabled && kept.chars.Some? && kept.chars.value <= gate.maxChars)
    && (status.Fail? <==> gate.enabled && kept.chars.Some? && kept.chars.value > gate.maxChars)
  }

  /** What must not be served: under enforcement, an image over the threshold, or an unread one when failing closed. */
  predicate MustBlock(kept: Attempt, gate: Config) {
    && gate.enabled && gate.enforce
    && (if kept.chars.Some? then kept.chars.value > gate.maxChars else gate.failClosed)
  }

  lemma ResolveIsTrue(best: Attempt, gate: Config)
    ensures VerdictIsTrue(Resolve(best, gate), best, gate)
    ensures Rejects(Resolve(best, gate), gate) <==> MustBlock(best, gate)
  {
  }

  /** Without enforcement nothing is blocked, whatever was found. */
  lemma NothingBlockedUnenforced(best: Attempt, gate: Config)
    requires !gate.enforce
    ensures !Rejects(Resolve(best, gate), gate)
  {
  }

  // ---- the request ----

  /** What the outside answers, per attempt number from zero. */
  datatype World = World(
    seed: nat -> int, render: nat -> Render, scan: nat -> Option<seq<Detection>>, path: nat -> Path,
    unlinks: nat -> bool)

  /** File names are fresh and distinct. */
  ghost predicate FreshPaths(w: World, files: set<Path>) {
    (forall i: nat :: w.path(i) !in files) && (forall i: nat, j: nat :: w.path(i) == w.path(j) ==> i == j)
  }

  function Budget(gate: Config): int {
    if gate.enabled then gate.maxAttempts else 1
  }

  function Score(w: World, gate: Config, i: nat): Option<int> {
    if !gate.enabled then Some(0)
    else if w.scan(i).None? then None
    else Some(CountLeaked(w.scan(i).value, gate.minConfidence))
  }

  function TheAttempt(w: World, gate: Config, i: nat): Attempt {
    Attempt(w.seed(i), Score(w, gate, i), w.path(i))
  }

  /** Re-rolling goes on only from a scored attempt over the threshold. */
  predicate Retries(gate: Config, chars: Option<int>) {
    gate.enabled && chars.Some? && chars.value > gate.maxChars
  }

  predicate AttemptsOk(attempts: seq<Attempt>, w: World, gate: Config) {
    && 1 <= |attempts| <= Budget(gate)
    && (forall i | 0 <= i < |attempts| :: w.render(i).Saved? && attempts[i] == TheAttempt(w, gate, i))
    && (forall i | 0 <= i < |attempts| - 1 :: Retries(gate, attempts[i].chars))
    && (Retries(gate, attempts[|attempts| - 1].chars) && |attempts| < Budget(gate) ==> !w.render(|attempts|).Saved?)
  }

  function PathsOf(attempts: seq<Attempt>): set<Path> {
    set a | a in attempts :: a.path
  }

  /** The count on an attempt is its scan's: what the scan read, None when it failed, and zero with the gate off. */
  predicate ScoredBy(chars: Option<int>, scan: Option<seq<Detection>>, gate: Config) {
    if !gate.enabled then chars == Some(0)
    else if scan.None? then chars.None?
    else chars == Some(SumChars(Confident(scan.value, gate.minConfidence)))
  }

  /** Why rendering stopped after n attempts: not measured, unreadable, good enough, no budget, or a failed render. */
  predicate StoppedFor(n: nat, w: World, gate: Config)
    requires n > 0
  {
    || !gate.enabled
    || w.scan(n - 1).None?
    || SumChars(Confident(w.scan(n - 1).value, gate.minConfidence)) <= gate.maxChars
    || n == gate.maxAttempts
    || !w.render(n).Saved?
  }

  /** The i-th attempt was worth another: the gate is on, its image was read, and it has too much text. */
  predicate WentOn(i: nat, w: World, gate: Config) {
    gate.enabled && w.scan(i).Some? && SumChars(Confident(w.scan(i).value, gate.minConfidence)) > gate.maxChars
  }

  /** The attempts are the renders 0..n-1, all saved, each but the last worth another, the last the end. */
  predicate Rounds(n: nat, w: World, gate: Config) {
    && 1 <= n <= (if gate.enabled then gate.maxAttempts else 1)
    && (forall i: nat | i < n :: w.render(i).Saved?)
    && (forall i: nat | i < n - 1 :: WentOn(i, w, gate))
    && StoppedFor(n, w, gate)
  }

  /** The image was read with no more text than the i-th, or the i-th was not read. */
  predicate NoWorse(chars: Option<int>, i: nat, w: World, gate: Config) {
    w.scan(i).Some? ==> chars.Some? && chars.value <= SumChars(Confident(w.scan(i).value, gate.minConfidence))
  }

  predicate TrulyBetter(chars: Option<int>, i: nat, w: World, gate: Config) {
    chars.Some? && (w.scan(i).Some? ==> chars.value < SumChars(Confident(w.scan(i).value, gate.minConfidence)))
  }

  /** The kept attempt is the k-th of n: none of them was read with less text, and the ones before it with more. */
  predicate KeptAs(kept: Attempt, k: nat, n: nat, w: World, gate: Config) {
    && k < n && kept.path == w.path(k) && kept.seed == w.seed(k) && ScoredBy(kept.chars, w.scan(k), gate)
    && (gate.enabled ==> forall i: nat | i < n :: NoWorse(kept.chars, i, w, gate))
    && (gate.enabled ==> forall i: nat | i < k :: TrulyBetter(kept.chars, i, w, gate))
  }

  ghost predicate KeptIsBest(kept: Attempt, n: nat, w: World, gate: Config) {
    exists k: nat :: KeptAs(kept, k, n, w, gate)
  }

  lemma AttemptsAreRounds(attempts: seq<Attempt>, w: World, gate: Config)
    requires AttemptsOk(attempts, w, gate)
    ensures Rounds(|attempts|, w, gate)
    ensures forall i | 0 <= i < |attempts| :: ScoredBy(attempts[i].chars, w.scan(i), gate)
  {
    forall i | 0 <= i < |attempts| ensures ScoredBy(attempts[i].chars, w.scan(i), gate) {
      if w.scan(i).Some? { CountIsSumOfConfident(w.scan(i).value, gate.minConfidence); }
    }
    forall i: nat | i < |attempts| - 1 ensures WentOn(i, w, gate) {
      assert Retries(gate, attempts[i].chars) && ScoredBy(attempts[i].chars, w.scan(i), gate);
    }
    var last := |attempts| - 1;
    assert ScoredBy(attempts[last].chars, w.scan(last), gate);
  }

  lemma BestIsKept(attempts: seq<Attempt>, w: World, gate: Config)
    requires AttemptsOk(attempts, w, gate)
    ensures KeptAs(attempts[PickBest(attempts)], PickBest(attempts), |attempts|, w, gate)
  {
    var k := PickBest(attempts);
    AttemptsAreRounds(attempts, w, gate);
    assert attempts[k].path == w.path(k) && attempts[k].seed == w.seed(k);
    forall i: nat | gate.enabled && i < |attempts|
      ensures NoWorse(attempts[k].chars, i, w, gate) && (i < k ==> TrulyBetter(attempts[k].chars, i, w, gate))
    {
      assert ScoredBy(attempts[i].chars, w.scan(i), gate) && !Better(attempts[i].chars, attempts[k].chars);
    }
  }

  datatype Rendered = Attempts(list: seq<Attempt>) | NoImage(code: int)

  datatype Response =
    | Image(kept: Attempt, status: Status, attempts: nat, passed: bool)
    | Blocked(kept: Attempt, status: Status, attempts: nat)
    | HttpError(code: int)

  class OutputDir {
    var files: set<Path>

    constructor (existing: set<Path>)
      ensures files == existing
    {
      files := existing;
    }

    method RenderAttempts(gate: Config, w: World) returns (r: Rendered)
      requires Sane(gate) && FreshPaths(w, files)
      modifies this
      ensures r.Attempts? ==> AttemptsOk(r.list, w, gate) && files == old(files) + PathsOf(r.list)
      ensures r.Attempts? ==> Rounds(|r.list|, w, gate)
      ensures r.NoImage? ==> files == old(files) && !w.render(0).Saved?
                             && r.code == if w.render(0).OutOfMemory? then 503 else 500
    {
      var attempts: seq<Attempt> := [];
      var i := 0;
      while i < Budget(gate)
        invariant |attempts| == i <= Budget(gate)
        invariant forall k | 0 <= k < i :: w.render(k).Saved? && attempts[k] == TheAttempt(w, gate, k)
        invariant forall k | 0 <= k < i :: Retries(gate, attempts[k].chars)
        invariant files == old(files) + PathsOf(attempts)
      {
        match w.render(i) {
          case OutOfMemory =>
            if attempts == [] { return NoImage(503); }
            break;
          case Broken =>
            if attempts == [] { return NoImage(500); }
            break;
          case Saved =>
            files := files + {w.path(i)};
        }
        var chars := if gate.enabled then (match w.scan(i)
                                           case None => None
                                           case Some(found) => Some(CountLeaked(found, gate.minConfidence)))
                     else Some(0);
        PathsSnoc(attempts, Attempt(w.seed(i), chars, w.path(i)));
        attempts := attempts + [Attempt(w.seed(i), chars, w.path(i))];
        if chars.None? || !gate.enabled || chars.value <= gate.maxChars {
          break;
        }
        i := i + 1;
      }
      r := Attempts(attempts);
      AttemptsAreRounds(attempts, w, gate);
    }

    /** Unlink every attempt but the kept one; an unlink that fails is let go. */
    method DropOthers(attempts: seq<Attempt>, keep: nat, w: World)
      requires keep < |attempts|
      requires forall i | 0 <= i < |attempts| :: attempts[i].path == w.path(i)
      modifies this
      ensures files == old(files) - Dropped(attempts, keep, w, |attempts|)
    {
      for i := 0 to |attempts|
        invariant files == old(files) - Dropped(attempts, keep, w, i)
      {
        if i != keep && w.unlinks(i) {
          files := files - {attempts[i].path};
        }
      }
    }

    method Generate(gate: Config, w: World) returns (r: Response)
      requires Sane(gate) && FreshPaths(w, files)
      modifies this
      ensures r.HttpError? <==> !w.render(0).Saved?
      ensures r.HttpError? ==> files == old(files) && r.code == if w.render(0).OutOfMemory? then 503 else 500
      ensures r.Image? ==> (r.passed <==> !gate.enabled || (r.kept.chars.Some? && r.kept.chars.value <= gate.maxChars))
      ensures !r.HttpError? ==> VerdictIsTrue(r.status, r.kept, gate)
      ensures !r.HttpError? ==> (r.Blocked? <==> MustBlock(r.kept, gate))
      ensures !r.HttpError? ==> Rounds(r.attempts, w, gate) && KeptIsBest(r.kept, r.attempts, w, gate)
      ensures !r.HttpError? ==>
                exists attempts: seq<Attempt> :: AttemptsOk(attempts, w, gate) && |attempts| == r.attempts
                  && r.kept == attempts[PickBest(attempts)]
                  && files == old(files)
                              + (if r.Image? then {r.kept.path} else LeftBehind(attempts, PickBest(attempts), w))
                              + Stuck(attempts, PickBest(attempts), w)
    {
      var rendered := RenderAttempts(gate, w);
      if rendered.NoImage? {
        return HttpError(rendered.code);
      }
      var attempts := rendered.list;
      var k := PickBest(attempts);
      DropOthers(attempts, k, w);
      var best := attempts[k];
      var status := Resolve(best, gate);
      ResolveIsTrue(best, gate);
      BestIsKept(attempts, w, gate);
      FilesAfterDrop(old(files), attempts, k, w, gate);
      if Rejects(status, gate) {
        if w.unlinks(k) {
          files := files - {best.path};
        }
        FilesAfterBlock(old(files), attempts, k, w, gate);
        return Blocked(best, status, |attempts|);
      }
      r := Image(best, status, |attempts|, status.Pass? || status.Disabled?);
    }
  }

  /** The paths unlinked among the first n attempts, keeping one. */
  function Dropped(attempts: seq<Attempt>, keep: nat, w: World, n: nat): set<Path>
    requires n <= |attempts|
  {
    if n == 0 then {}
    else Dropped(attempts, keep, w, n - 1)
         + if n - 1 != keep && w.unlinks(n - 1) then {attempts[n - 1].path} else {}
  }

  /** Attempts that should have gone but whose unlink failed. */
  function Stuck(attempts: seq<Attempt>, keep: nat, w: World): set<Path> {
    set i: nat | i < |attempts| && i != keep && !w.unlinks(i) :: attempts[i].path
  }

  function LeftBehind(attempts: seq<Attempt>, keep: nat, w: World): set<Path>
    requires keep < |attempts|
  {
    if w.unlinks(keep) then {} else {attempts[keep].path}
  }

  lemma PathsSnoc(attempts: seq<Attempt>, a: Attempt)
    ensures PathsOf(attempts + [a]) == PathsOf(attempts) + {a.path}
  {
    forall p ensures p in PathsOf(attempts + [a]) <==> p in PathsOf(attempts) + {a.path} {
      if p in PathsOf(attempts) {
        var x :| x in attempts && x.path == p;
        assert x in attempts + [a];
      }
      if p == a.path { assert a in attempts + [a]; }
    }
  }

  lemma {:induction false} DroppedIs(attempts: seq<Attempt>, keep: nat, w: World, n: nat, p: Path)
    requires n <= |attempts|
    ensures p in Dropped(attempts, keep, w, n) <==>
            exists i: nat :: i < n && i != keep && w.unlinks(i) && attempts[i].path == p
    decreases n
  {
    if n > 0 { DroppedIs(attempts, keep, w, n - 1, p); }
  }

  lemma FilesAfterDrop(before: set<Path>, attempts: seq<Attempt>, keep: nat, w: World, gate: Config)
    requires AttemptsOk(attempts, w, gate) && FreshPaths(w, before) && keep < |attempts|
    ensures before + PathsOf(attempts) - Dropped(attempts, keep, w, |attempts|)
         == before + {attempts[keep].path} + Stuck(attempts, keep, w)
  {
    var left := before + PathsOf(attempts) - Dropped(attempts, keep, w, |attempts|);
    forall p ensures p in left <==> p in before + {attempts[keep].path} + Stuck(attempts, keep, w) {
      DroppedIs(attempts, keep, w, |attempts|, p);
      if p in PathsOf(attempts) {
        var a :| a in attempts && a.path == p;
        var i :| 0 <= i < |attempts| && attempts[i] == a;
        assert p == w.path(i);
      }
      assert attempts[keep] in attempts;
      if p in Stuck(attempts, keep, w) {
        var i: nat :| i < |attempts| && i != keep && !w.unlinks(i) && attempts[i].path == p;
        assert attempts[i] in attempts && p == w.path(i);
      }
    }
  }

  lemma FilesAfterBlock(before: set<Path>, attempts: seq<Attempt>, keep: nat, w: World, gate: Config)
    requires AttemptsOk(attempts, w, gate) && FreshPaths(w, before) && keep < |attempts|
    ensures before + {attempts[keep].path} + Stuck(attempts, keep, w) - {attempts[keep].path}
         == before + Stuck(attempts, keep, w)
  {
    forall i: nat | i < |attempts| && i != keep ensures attempts[i].path != attempts[keep].path {
      assert attempts[i].path == w.path(i) && attempts[keep].path == w.path(keep);
    }
  }

  /** Nothing is stuck if, and only if, every unlink of an attempt that was not kept works. */
  lemma NothingStuck(attempts: seq<Attempt>, keep: nat, w: World)
    requires keep < |attempts|
    ensures Stuck(attempts, keep, w) == {} <==> forall i: nat | i < |attempts| && i != keep :: w.unlinks(i)
    ensures LeftBehind(attempts, keep, w) == {} <==> w.unlinks(keep)
  {
    if i: nat :| i < |attempts| && i != keep && !w.unlinks(i) {
      assert attempts[i].path in Stuck(attempts, keep, w);
    }
  }

  /** The files a request has added to those there before it. */
  function Added(after: set<Path>, before: set<Path>): set<Path> {
    after - before
  }

  lemma StuckIsNew(attempts: seq<Attempt>, keep: nat, w: World, before: set<Path>, gate: Config)
    requires AttemptsOk(attempts, w, gate) && FreshPaths(w, before) && keep < |attempts|
    ensures Stuck(attempts, keep, w) !! before && attempts[keep].path !in before
    ensures attempts[keep].path !in Stuck(attempts, keep, w)
  {
    assert attempts[keep].path == w.path(keep);
    forall p | p in Stuck(attempts, keep, w) ensures p !in before && p != attempts[keep].path {
      var i: nat :| i < |attempts| && i != keep && !w.unlinks(i) && attempts[i].path == p;
      assert p == w.path(i);
    }
  }

  /** What was kept and what is stuck is what was added; it is one file exactly when nothing is stuck. */
  lemma AddedFiles(kept: Path, stuck: set<Path>, before: set<Path>)
    requires kept !in before && kept !in stuck && stuck !! before
    ensures Added(before + {kept} + stuck, before) == {kept} + stuck
    ensures |{kept} + stuck| == 1 <==> stuck == {}
  {
    assert |{kept} + stuck| == 1 + |stuck|;
  }

  /** An image adds exactly one file, its own, if and only if the other attempts' unlinks work. */
  lemma OneFilePerImage(attempts: seq<Attempt>, keep: nat, w: World, before: set<Path>, gate: Config)
    requires AttemptsOk(attempts, w, gate) && FreshPaths(w, before) && keep < |attempts|
    ensures var added := Added(before + {attempts[keep].path} + Stuck(attempts, keep, w), before);
            && attempts[keep].path in added
            && (|added| == 1 <==> forall i: nat | i < |attempts| && i != keep :: w.unlinks(i))
  {
    StuckIsNew(attempts, keep, w, before, gate);
    NothingStuck(attempts, keep, w);
    AddedFiles(attempts[keep].path, Stuck(attempts, keep, w), before);
  }

  /** A rejection adds no file if, and only if, every attempt's unlink works. */
  lemma NoFilePerRejection(attempts: seq<Attempt>, keep: nat, w: World, before: set<Path>, gate: Config)
    requires AttemptsOk(attempts, w, gate) && FreshPaths(w, before) && keep < |attempts|
    ensures Added(before + LeftBehind(attempts, keep, w) + Stuck(attempts, keep, w), before) == {} <==>
            forall i: nat | i < |attempts| :: w.unlinks(i)
  {
    StuckIsNew(attempts, keep, w, before, gate);
    NothingStuck(attempts, keep, w);
    assert Added(before + LeftBehind(attempts, keep, w) + Stuck(attempts, keep, w), before)
        == LeftBehind(attempts, keep, w) + Stuck(attempts, keep, w);
  }

  // ---- what the verdict means ----

  /** An unscored attempt is kept only when it is the only one: a scan failure after a scored attempt never wins. */
  lemma UnscoredNeverDisplaces(attempts: seq<Attempt>, w: World, gate: Config)
    requires AttemptsOk(attempts, w, gate) && attempts[PickBest(attempts)].chars.None?
    ensures |attempts| == 1 && gate.enabled && w.scan(0).None?
  {
    var k := PickBest(attempts);
    assert |attempts| > 1 ==> Retries(gate, attempts[0].chars);
    assert !Better(attempts[0].chars, attempts[k].chars);
  }

  /** An image let through under enforcement is within the threshold, or was the one attempt no scan could read. */
  lemma EnforcedImagesAreClean(attempts: seq<Attempt>, w: World, gate: Config)
    requires AttemptsOk(attempts, w, gate) && gate.enabled && gate.enforce
    ensures var kept := attempts[PickBest(attempts)];
            !Rejects(Resolve(kept, gate), gate) <==>
              (kept.chars.Some? && kept.chars.value <= gate.maxChars) || (kept.chars.None? && !gate.failClosed)
    ensures var kept := attempts[PickBest(attempts)];
            kept.chars.None? ==> |attempts| == 1 && w.scan(0).None?
  {
    if attempts[PickBest(attempts)].chars.None? { UnscoredNeverDisplaces(attempts, w, gate); }
  }

  /** A passing attempt ends the re-rolling, so it is the last one and the one kept. */
  lemma PassIsLast(attempts: seq<Attempt>, w: World, gate: Config, i: nat)
    requires AttemptsOk(attempts, w, gate) && gate.enabled && i < |attempts|
    requires attempts[i].chars.Some? && attempts[i].chars.value <= gate.maxChars
    ensures i == |attempts| - 1 == PickBest(attempts)
  {
    var k := PickBest(attempts);
    assert i < |attempts| - 1 ==> Retries(gate, attempts[i].chars);
    assert !Better(attempts[i].chars, attempts[k].chars);
    assert k < |attempts| - 1 ==> Retries(gate, attempts[k].chars);
  }
}
