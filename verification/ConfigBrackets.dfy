/**
 * Override and replacement brackets around the loaded config (sky/skypilot_config.py), properly nested
 * and left normally or by an exception.
 */
module ConfigBrackets {
  import opened Prelude
  import opened Configs

  /** The loaded config of a process or request context. */
  datatype Context = Context(config: Tree, path: Option<seq<string>>, overridden: bool, server: Option<Tree>)

  /** What an override brings along: its configs and the files they came from. */
  datatype Request = Request(configs: Tree, files: seq<string>)

  /** Checks outside this model: merging with its key and workspace checks (None where they raise), and the schema. */
  datatype Checks = Checks(merged: (Tree, Tree) -> Option<Tree>, valid: Tree -> bool)

  /** A program that runs under brackets. */
  datatype Block =
    | Observe
    | Raise
    | Then(first: Block, second: Block)
    | Attempt(body: Block)                     // swallows an exception of its body
    | Override(request: Request, body: Block)
    | Replace(config: Tree, body: Block)

  /** A bracket in force: an override with the config that was loaded when it was entered, or a replacement. */
  datatype Frame = Overriding(loaded: Tree, request: Request) | Replacing(config: Tree)

  /** What was seen at one point, with the brackets in force there, outermost first. */
  datatype Sight = Sight(ctx: Context, entered: seq<Frame>)

  datatype Outcome = Outcome(ctx: Context, raised: bool, seen: seq<Sight>)

  predicate IsEmpty(configs: Tree) {
    configs == Null || configs == Node(map[])
  }

  function AppendFiles(path: Option<seq<string>>, files: seq<string>): Option<seq<string>> {
    var all := (if path.Some? then path.value else []) + files;
    if all == [] then None else Some(all)
  }

  function Inside(c: Context, merged: Tree, files: seq<string>): Context {
    Context(merged, AppendFiles(c.path, files), true, if c.server.Some? then c.server else Some(c.config))
  }

  /** What the final block of an override puts back; the flag is cleared, not restored. */
  function LeftOverride(c: Context): Context {
    Context(c.config, c.path, false, c.server)
  }

  function Exec(w: Checks, b: Block, c: Context, entered: seq<Frame>): Outcome {
    match b
    case Observe => Outcome(c, false, [Sight(c, entered)])
    case Raise => Outcome(c, true, [])
    case Then(first, second) =>
      var a := Exec(w, first, c, entered);
      if a.raised then a
      else
        var z := Exec(w, second, a.ctx, entered);
        Outcome(z.ctx, z.raised, a.seen + z.seen)
    case Attempt(body) => Exec(w, body, c, entered).(raised := false)
    case Override(request, body) =>
      if IsEmpty(request.configs) then Exec(w, body, c, entered)
      else
        var merged := w.merged(c.config, request.configs);
        if merged.None? then Outcome(c, true, [])
        else if !w.valid(merged.value) then Outcome(LeftOverride(c), true, [])
        else
          var r := Exec(w, body, Inside(c, merged.value, request.files), entered + [Overriding(c.config, request)]);
          Outcome(LeftOverride(c), r.raised, r.seen)
    case Replace(config, body) =>
      if config == c.config then Exec(w, body, c, entered)
      else
        var r := Exec(w, body, c.(config := config), entered + [Replacing(config)]);
        r.(ctx := r.ctx.(config := c.config))
  }

  /** Whatever the nesting and wherever exceptions occur, config, path and server config are as on entry. */
  lemma {:induction false} BracketsRestore(w: Checks, b: Block, c: Context, entered: seq<Frame>)
    ensures var after := Exec(w, b, c, entered).ctx;
      after.config == c.config && after.path == c.path && after.server == c.server
  {
    match b
    case Then(first, second) =>
      BracketsRestore(w, first, c, entered);
      BracketsRestore(w, second, Exec(w, first, c, entered).ctx, entered);
    case Attempt(body) =>
      BracketsRestore(w, body, c, entered);
    case Override(request, body) =>
      BracketsRestore(w, body, c, entered);
    case Replace(config, body) =>
      BracketsRestore(w, body, c, entered);
      BracketsRestore(w, body, c.(config := config), entered + [Replacing(config)]);
    case _ =>
  }

  /** The config loaded when the outermost override was entered, if there is one. */
  function Outermost(entered: seq<Frame>): Option<Tree> {
    if entered == [] then None
    else if entered[0].Overriding? then Some(entered[0].loaded)
    else Outermost(entered[1..])
  }

  lemma {:induction false} OutermostGrows(entered: seq<Frame>, frame: Frame)
    ensures Outermost(entered + [frame]) == if Outermost(entered).Some? then Outermost(entered)
            else if frame.Overriding? then Some(frame.loaded) else None
  {
    if entered == [] {
    } else {
      assert (entered + [frame])[1..] == entered[1..] + [frame];
      OutermostGrows(entered[1..], frame);
    }
  }

  /** At every override depth the server config is the one loaded when the outermost override was entered. */
  lemma {:induction false} ServerIsOutermost(w: Checks, b: Block, c: Context, entered: seq<Frame>)
    requires c.server == Outermost(entered)
    ensures forall i :: 0 <= i < |Exec(w, b, c, entered).seen| ==>
      var sight := Exec(w, b, c, entered).seen[i]; sight.ctx.server == Outermost(sight.entered)
  {
    match b
    case Then(first, second) =>
      ServerIsOutermost(w, first, c, entered);
      BracketsRestore(w, first, c, entered);
      ServerIsOutermost(w, second, Exec(w, first, c, entered).ctx, entered);
    case Attempt(body) =>
      ServerIsOutermost(w, body, c, entered);
    case Override(request, body) =>
      var merged := w.merged(c.config, request.configs);
      if IsEmpty(request.configs) {
        ServerIsOutermost(w, body, c, entered);
      } else if merged.Some? {
        OutermostGrows(entered, Overriding(c.config, request));
        ServerIsOutermost(w, body, Inside(c, merged.value, request.files), entered + [Overriding(c.config, request)]);
      }
    case Replace(config, body) =>
      OutermostGrows(entered, Replacing(config));
      ServerIsOutermost(w, body, c, entered);
      ServerIsOutermost(w, body, c.(config := config), entered + [Replacing(config)]);
    case _ =>
  }

  /** Some override with anything in it gets past its checks and enters its guarded part. */
  predicate Enters(w: Checks, b: Block, c: Context) {
    match b
    case Observe => false
    case Raise => false
    case Then(first, second) =>
      Enters(w, first, c) || (!Exec(w, first, c, []).raised && Enters(w, second, Exec(w, first, c, []).ctx))
    case Attempt(body) => Enters(w, body, c)
    case Override(request, body) =>
      if IsEmpty(request.configs) then Enters(w, body, c) else w.merged(c.config, request.configs).Some?
    case Replace(config, body) => Enters(w, body, c.(config := config))
  }

  /** What happens does not depend on the log of entered configs. */
  lemma {:induction false} LogIsPassive(w: Checks, b: Block, c: Context, x: seq<Frame>, y: seq<Frame>)
    ensures Exec(w, b, c, x).ctx == Exec(w, b, c, y).ctx && Exec(w, b, c, x).raised == Exec(w, b, c, y).raised
  {
    match b
    case Then(first, second) =>
      LogIsPassive(w, first, c, x, y);
      LogIsPassive(w, second, Exec(w, first, c, x).ctx, x, y);
    case Attempt(body) =>
      LogIsPassive(w, body, c, x, y);
    case Override(request, body) =>
      LogIsPassive(w, body, c, x, y);
      var merged := w.merged(c.config, request.configs);
      if merged.Some? {
        var frame := Overriding(c.config, request);
        LogIsPassive(w, body, Inside(c, merged.value, request.files), x + [frame], y + [frame]);
      }
    case Replace(config, body) =>
      LogIsPassive(w, body, c, x, y);
      LogIsPassive(w, body, c.(config := config), x + [Replacing(config)], y + [Replacing(config)]);
    case _ =>
  }

  /** The overridden flag, by contrast, survives exactly when it was clear already or no override was entered. */
  lemma {:induction false} FlagSurvivesIff(w: Checks, b: Block, c: Context, entered: seq<Frame>)
    ensures Exec(w, b, c, entered).ctx.overridden == (c.overridden && !Enters(w, b, c))
    ensures Exec(w, b, c, entered).ctx.overridden == c.overridden <==> !c.overridden || !Enters(w, b, c)
  {
    match b
    case Then(first, second) =>
      FlagSurvivesIff(w, first, c, entered);
      LogIsPassive(w, first, c, entered, []);
      FlagSurvivesIff(w, second, Exec(w, first, c, entered).ctx, entered);
    case Attempt(body) =>
      FlagSurvivesIff(w, body, c, entered);
    case Override(request, body) =>
      FlagSurvivesIff(w, body, c, entered);
    case Replace(config, body) =>
      FlagSurvivesIff(w, body, c, entered);
      FlagSurvivesIff(w, body, c.(config := config), entered + [Replacing(config)]);
      assert config == c.config ==> c.(config := config) == c;
    case _ =>
  }

  /** Inside an outer override, the flag reads false once an inner override has been left. */
  lemma InnerExitClearsFlag(w: Checks, c: Context, r: Request)
    requires !IsEmpty(r.configs) && forall t, o :: w.merged(t, o).Some?
    requires forall t :: w.valid(t)
    ensures var seen := Exec(w, Override(r, Then(Override(r, Observe), Observe)), c, []).seen;
      |seen| == 2 && seen[0].ctx.overridden && !seen[1].ctx.overridden && |seen[1].entered| == 1
  {
    var outer := Inside(c, w.merged(c.config, r.configs).value, r.files);
    var entered := [] + [Overriding(c.config, r)];
    var inner := Override(r, Observe);
    assert Exec(w, inner, outer, entered).seen
        == [Sight(Inside(outer, w.merged(outer.config, r.configs).value, r.files),
                  entered + [Overriding(outer.config, r)])];
    assert Exec(w, Observe, LeftOverride(outer), entered).seen == [Sight(LeftOverride(outer), entered)];
    assert Exec(w, Then(inner, Observe), outer, entered).seen
        == Exec(w, inner, outer, entered).seen + Exec(w, Observe, LeftOverride(outer), entered).seen;
  }

  // ---------------------------------------------------------------------
  // What is seen inside.

  /** The innermost bracket decides: an override shows its request merged into what was loaded, a replacement itself. */
  ghost predicate Shows(w: Checks, base: Tree, frames: seq<Frame>, config: Tree) {
    if frames == [] then config == base
    else match frames[|frames| - 1]
      case Overriding(loaded, request) => w.merged(loaded, request.configs) == Some(config)
      case Replacing(replacement) => config == replacement
  }

  /** The files of all overrides in force, outermost first. */
  function Files(frames: seq<Frame>): seq<string> {
    if frames == [] then []
    else
      var last := frames[|frames| - 1];
      Files(frames[..|frames| - 1]) + (if last.Overriding? then last.request.files else [])
  }

  ghost predicate HasOverride(frames: seq<Frame>) {
    exists i :: 0 <= i < |frames| && frames[i].Overriding?
  }

  /**
   * What a context holds under these brackets: the config the innermost one shows, where each override found
   * what the brackets outside it show; the path of the context without them, followed by the files of all
   * overrides; and as server config the one without them or else what the outermost override found.
   */
  ghost predicate Sees(w: Checks, base: Context, frames: seq<Frame>, ctx: Context) {
    && Shows(w, base.config, frames, ctx.config)
    && (forall i :: 0 <= i < |frames| ==> FoundOutside(w, base.config, frames[..i], frames[i]))
    && ctx.path == PathUnder(base.path, frames)
    && ctx.server == if base.server.Some? then base.server else Outermost(frames)
  }

  ghost predicate FoundOutside(w: Checks, base: Tree, outside: seq<Frame>, frame: Frame) {
    frame.Overriding? ==> Shows(w, base, outside, frame.loaded) && !IsEmpty(frame.request.configs)
  }

  ghost function PathUnder(path: Option<seq<string>>, frames: seq<Frame>): Option<seq<string>> {
    var all := (if path.Some? then path.value else []) + Files(frames);
    if !HasOverride(frames) then path else if all == [] then None else Some(all)
  }

  lemma FramesGrow(w: Checks, base: Tree, frames: seq<Frame>, frame: Frame)
    requires forall i :: 0 <= i < |frames| ==> FoundOutside(w, base, frames[..i], frames[i])
    requires FoundOutside(w, base, frames, frame)
    ensures var more := frames + [frame];
      forall i :: 0 <= i < |more| ==> FoundOutside(w, base, more[..i], more[i])
  {
    var more := frames + [frame];
    forall i | 0 <= i < |more| ensures FoundOutside(w, base, more[..i], more[i]) {
      assert more[..i] == if i < |frames| then frames[..i] else frames;
    }
  }

  lemma PathGrows(path: Option<seq<string>>, frames: seq<Frame>, frame: Frame)
    ensures PathUnder(path, frames + [frame])
         == if frame.Overriding? then AppendFiles(PathUnder(path, frames), frame.request.files)
            else PathUnder(path, frames)
  {
    var more := frames + [frame];
    var before := if path.Some? then path.value else [];
    assert more[..|frames|] == frames && more[|frames|] == frame;
    assert HasOverride(more) <==> HasOverride(frames) || frame.Overriding? by {
      if i :| 0 <= i < |frames| && frames[i].Overriding? {
        assert more[i].Overriding?;
      }
    }
    FilesWithout(frames);
    if frame.Overriding? {
      assert (before + Files(frames)) + frame.request.files == before + Files(more);
      assert before + [] == before;
    } else {
      assert Files(more) == Files(frames) + [] == Files(frames);
    }
  }

  lemma SeesOverride(w: Checks, base: Context, frames: seq<Frame>, c: Context, request: Request, merged: Tree)
    requires Sees(w, base, frames, c) && !IsEmpty(request.configs)
    requires w.merged(c.config, request.configs) == Some(merged)
    ensures Sees(w, base, frames + [Overriding(c.config, request)], Inside(c, merged, request.files))
  {
    var frame := Overriding(c.config, request);
    OutermostGrows(frames, frame);
    FramesGrow(w, base.config, frames, frame);
    PathGrows(base.path, frames, frame);
  }

  lemma SeesReplacement(w: Checks, base: Context, frames: seq<Frame>, c: Context, config: Tree)
    requires Sees(w, base, frames, c)
    ensures Sees(w, base, frames + [Replacing(config)], c.(config := config))
  {
    OutermostGrows(frames, Replacing(config));
    FramesGrow(w, base.config, frames, Replacing(config));
    PathGrows(base.path, frames, Replacing(config));
  }

  lemma {:induction false} FilesWithout(frames: seq<Frame>)
    ensures !HasOverride(frames) ==> Files(frames) == []
  {
    if frames == [] {
    } else {
      var n := |frames| - 1;
      FilesWithout(frames[..n]);
      if i :| 0 <= i < n && frames[..n][i].Overriding? {
        assert frames[i].Overriding?;
      }
    }
  }

  /** At every point of every program, under overrides and replacements in any order, that is what is seen. */
  lemma {:induction false} SeenInside(w: Checks, b: Block, base: Context, c: Context, frames: seq<Frame>)
    requires Sees(w, base, frames, c)
    ensures forall i :: 0 <= i < |Exec(w, b, c, frames).seen| ==>
      var sight := Exec(w, b, c, frames).seen[i]; Sees(w, base, sight.entered, sight.ctx)
  {
    match b
    case Then(first, second) =>
      SeenInside(w, first, base, c, frames);
      BracketsRestore(w, first, c, frames);
      SeenInside(w, second, base, Exec(w, first, c, frames).ctx, frames);
    case Attempt(body) =>
      SeenInside(w, body, base, c, frames);
    case Override(request, body) =>
      var merged := w.merged(c.config, request.configs);
      if IsEmpty(request.configs) {
        SeenInside(w, body, base, c, frames);
      } else if merged.Some? {
        SeesOverride(w, base, frames, c, request, merged.value);
        SeenInside(w, body, base, Inside(c, merged.value, request.files), frames + [Overriding(c.config, request)]);
      }
    case Replace(config, body) =>
      if config == c.config {
        SeenInside(w, body, base, c, frames);
      } else {
        SeesReplacement(w, base, frames, c, config);
        SeenInside(w, body, base, c.(config := config), frames + [Replacing(config)]);
      }
    case _ =>
  }

  /** An exception ends what it happens in. */
  lemma RaiseCutsShort(w: Checks, b: Block, rest: Block, c: Context, entered: seq<Frame>)
    ensures var cut := Exec(w, Then(Then(b, Raise), rest), c, entered);
      cut.raised && cut.seen == Exec(w, b, c, entered).seen
  {
    var first := Exec(w, b, c, entered);
    assert Exec(w, Raise, first.ctx, entered) == Outcome(first.ctx, true, []);
    var cut := Exec(w, Then(b, Raise), c, entered);
    assert cut.raised && cut.seen == (if first.raised then first.seen else first.seen + []);
    assert Exec(w, Then(Then(b, Raise), rest), c, entered) == cut;
  }

  /** It passes through a replacement, and ends where it is caught. */
  lemma ExceptionsPass(w: Checks, b: Block, rest: Block, c: Context, entered: seq<Frame>, config: Tree)
    ensures Exec(w, Replace(config, Then(Then(b, Raise), rest)), c, entered).raised
    ensures var caught := Exec(w, Attempt(Then(Then(b, Raise), rest)), c, entered);
      !caught.raised && caught.seen == Exec(w, b, c, entered).seen
  {
    RaiseCutsShort(w, b, rest, c, entered);
    RaiseCutsShort(w, b, rest, c.(config := config), entered + [Replacing(config)]);
  }

  /** Brackets around a program, outermost first. */
  datatype Bracket = Overrides(request: Request) | Replaces(config: Tree)

  function Nest(brackets: seq<Bracket>, inner: Block): Block {
    if brackets == [] then inner
    else
      match brackets[0]
      case Overrides(request) => Override(request, Nest(brackets[1..], inner))
      case Replaces(config) => Replace(config, Nest(brackets[1..], inner))
  }

  /** The config under one bracket and the frame it leaves, if any; None where it raises. */
  function BelowOne(w: Checks, above: Tree, bracket: Bracket): Option<(Tree, seq<Frame>)> {
    match bracket
    case Overrides(Request(configs, files)) =>
      if configs == Null || configs == Node(map[]) then Some((above, []))
      else if w.merged(above, configs).None? || !w.valid(w.merged(above, configs).value) then None
      else Some((w.merged(above, configs).value, [Overriding(above, Request(configs, files))]))
    case Replaces(replacement) =>
      Some((replacement, if replacement == above then [] else [Replacing(replacement)]))
  }

  /** The config under all these brackets and the frames they leave. */
  function Below(w: Checks, config: Tree, brackets: seq<Bracket>): Option<(Tree, seq<Frame>)> {
    if brackets == [] then Some((config, []))
    else
      var n := |brackets| - 1;
      match Below(w, config, brackets[..n])
      case None => None
      case Some((above, frames)) =>
        match BelowOne(w, above, brackets[n])
        case None => None
        case Some((last, more)) => Some((last, frames + more))
  }

  /** Descending through the first bracket and then through the others. */
  lemma {:induction false} BelowFirst(w: Checks, config: Tree, brackets: seq<Bracket>)
    requires brackets != []
    ensures match BelowOne(w, config, brackets[0])
      case None => Below(w, config, brackets) == None
      case Some((above, frames)) =>
        match Below(w, above, brackets[1..])
        case None => Below(w, config, brackets) == None
        case Some((last, more)) => Below(w, config, brackets) == Some((last, frames + more))
  {
    var n := |brackets| - 1;
    if n == 0 {
      assert brackets[..0] == [] && brackets[1..] == [];
      match BelowOne(w, config, brackets[0])
      case None =>
      case Some((above, frames)) => assert [] + frames == frames + [];
    } else {
      BelowFirst(w, config, brackets[..n]);
      assert brackets[1..][..n - 1] == brackets[..n][1..] && brackets[1..][n - 1] == brackets[n];
      match BelowOne(w, config, brackets[0])
      case None =>
      case Some((above, frames)) =>
        match Below(w, above, brackets[..n][1..])
        case None =>
        case Some((middle, more)) =>
          match BelowOne(w, middle, brackets[n])
          case None =>
          case Some((last, extra)) => assert (frames + more) + extra == frames + (more + extra);
    }
  }

  /** It saw once, this config under these frames, or it raised and saw nothing. */
  ghost predicate SawOnce(r: Outcome, below: Option<(Tree, seq<Frame>)>, entered: seq<Frame>) {
    match below
    case None => r.raised && r.seen == []
    case Some((config, frames)) =>
      !r.raised && |r.seen| == 1 && r.seen[0].ctx.config == config && r.seen[0].entered == entered + frames
  }

  lemma SawUnder(r: Outcome, below: Option<(Tree, seq<Frame>)>, entered: seq<Frame>, outer: seq<Frame>)
    requires SawOnce(r, below, entered + outer)
    ensures below.Some? ==> SawOnce(r, Some((below.value.0, outer + below.value.1)), entered)
    ensures below.None? ==> SawOnce(r, None, entered)
  {
    if below.Some? {
      assert (entered + outer) + below.value.1 == entered + (outer + below.value.1);
    }
  }

  /** A program that only looks, under any brackets: it sees once, what and where it should, unless a bracket raises. */
  lemma {:induction false} NestedSight(w: Checks, brackets: seq<Bracket>, c: Context, entered: seq<Frame>)
    ensures SawOnce(Exec(w, Nest(brackets, Observe), c, entered), Below(w, c.config, brackets), entered)
    decreases |brackets|
  {
    if brackets == [] {
      assert entered + [] == entered;
    } else {
      BelowFirst(w, c.config, brackets);
      match BelowOne(w, c.config, brackets[0])
      case None =>
      case Some((above, frames)) => NestedStep(w, brackets, c, entered, above, frames);
    }
  }

  lemma {:induction false} NestedStep(w: Checks, brackets: seq<Bracket>, c: Context, entered: seq<Frame>, above: Tree,
                                      frames: seq<Frame>)
    requires brackets != [] && BelowOne(w, c.config, brackets[0]) == Some((above, frames))
    ensures var below := Below(w, above, brackets[1..]);
      SawOnce(Exec(w, Nest(brackets, Observe), c, entered),
              if below.None? then None else Some((below.value.0, frames + below.value.1)), entered)
    decreases |brackets|, 0
  {
    var below := Below(w, above, brackets[1..]);
    if frames == [] {
      assert entered + frames == entered && above == c.config;
      NestedSight(w, brackets[1..], c, entered);
      SawUnder(Exec(w, Nest(brackets[1..], Observe), c, entered), below, entered, frames);
    } else {
      var inner := if brackets[0].Replaces? then c.(config := above) else Inside(c, above, brackets[0].request.files);
      NestedSight(w, brackets[1..], inner, entered + frames);
      SawUnder(Exec(w, Nest(brackets[1..], Observe), inner, entered + frames), below, entered, frames);
    }
  }

  // ---------------------------------------------------------------------
  // The mutable context.

  class ConfigContext {
    var config: Tree
    var path: Option<seq<string>>
    var overridden: bool
    var server: Option<Tree>

    ghost function Value(): Context
      reads this
    {
      Context(config, path, overridden, server)
    }

    constructor (config: Tree, path: Option<seq<string>>)
      ensures Value() == Context(config, path, false, None)
    {
      this.config, this.path := config, path;
      overridden, server := false, None;
    }

    /** Runs a program; the results tell whether an exception escapes it, and what it saw. */
    method Run(w: Checks, b: Block, ghost entered: seq<Frame>) returns (raised: bool, ghost seen: seq<Sight>)
      modifies this
      ensures Outcome(Value(), raised, seen) == Exec(w, b, old(Value()), entered)
      decreases b, 0
    {
      match b
      case Observe =>
        raised, seen := false, [Sight(Value(), entered)];
      case Raise =>
        raised, seen := true, [];
      case Then(first, second) =>
        raised, seen := Run(w, first, entered);
        if !raised {
          ghost var more;
          raised, more := Run(w, second, entered);
          seen := seen + more;
        }
      case Attempt(body) =>
        raised, seen := Run(w, body, entered);
        raised := false;
      case Override(request, body) =>
        raised, seen := RunOverride(w, request, body, entered);
      case Replace(replacement, body) =>
        raised, seen := RunReplace(w, replacement, body, entered);
    }

    method RunOverride(w: Checks, request: Request, body: Block, ghost entered: seq<Frame>)
      returns (raised: bool, ghost seen: seq<Sight>)
      modifies this
      ensures Outcome(Value(), raised, seen) == Exec(w, Override(request, body), old(Value()), entered)
      decreases body, 1
    {
      if IsEmpty(request.configs) {
        raised, seen := Run(w, body, entered);
        return;
      }
      var originalConfig, originalPath, outerServer := config, path, server;
      var merged := w.merged(config, request.configs);
      if merged.None? {
        return true, [];
      }
      if w.valid(merged.value) {
        overridden := true;
        server := if outerServer.Some? then outerServer else Some(originalConfig);
        config := merged.value;
        path := AppendFiles(path, request.files);
        raised, seen := Run(w, body, entered + [Overriding(originalConfig, request)]);
      } else {
        raised, seen := true, [];
      }
      server := outerServer;
      config := originalConfig;
      overridden := false;
      path := originalPath;
    }

    method RunReplace(w: Checks, replacement: Tree, body: Block, ghost entered: seq<Frame>)
      returns (raised: bool, ghost seen: seq<Sight>)
      modifies this
      ensures Outcome(Value(), raised, seen) == Exec(w, Replace(replacement, body), old(Value()), entered)
      decreases body, 1
    {
      var originalConfig := config;
      if replacement == originalConfig {
        raised, seen := Run(w, body, entered);
        return;
      }
      config := replacement;
      raised, seen := Run(w, body, entered + [Replacing(replacement)]);
      config := originalConfig;
    }
  }
}
