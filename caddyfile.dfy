/** The `esbuild` Caddyfile directive (caddyfile.go):

        esbuild [live_reload] [sass] [env] [source...] {
            auto_reload
            sass
            env
            source <file>
            target <path>
        }

    The directive arrives as a token stream; each token carries its line, because an
    argument must stand on the same line as the word it belongs to. The stream is read
    the way Caddy's dispenser reads it: the first token is the directive name; inline
    arguments are the following tokens on its line up to a "{"; a "{" ending that line
    opens a block, whose tokens are visited one by one until the matching "}". */
module Caddyfile {
  import opened Common

  datatype Token = Token(text: string, line: nat)

  /** The part of the plugin configuration the directive sets. */
  datatype Config = Config(sources: seq<string>, target: string, autoReload: bool, sass: bool, env: bool)

  datatype ParseError =
    | ArgErr               // no directive token at all
    | SassUnsupported      // "sass" without cgo and libsass
    | SourceNeedsFilename  // "source" with nothing after it on its line
    | TargetNeedsPath      // "target" with nothing after it on its line

  /** The configuration before any argument is read. */
  const Defaults := Config([], "/_build", false, false, false)

  const InlineKeywords: set<string> := {"live_reload", "sass", "env"}

  /** The words of a block that need an argument. */
  predicate TakesArg(word: string) {
    word == "source" || word == "target"
  }

  /** NextArg from cursor c: the next token exists, is on the same line and is not "{". */
  predicate HasArg(tokens: seq<Token>, c: nat)
    requires c < |tokens|
  {
    c + 1 < |tokens| && tokens[c + 1].line == tokens[c].line && tokens[c + 1].text != "{"
  }

  /** The first NextBlock from cursor c: the next token is a "{" on the same line. */
  predicate OpensBlock(tokens: seq<Token>, c: nat)
    requires c < |tokens|
  {
    c + 1 < |tokens| && tokens[c + 1].line == tokens[c].line && tokens[c + 1].text == "{"
  }

  /** strings.HasPrefix and strings.HasSuffix with "/", read character-wise. */
  lemma SlashEnds(s: string)
    ensures HasPrefix(s, "/") <==> |s| > 0 && s[0] == '/'
    ensures HasSuffix(s, "/") <==> |s| > 0 && s[|s| - 1] == '/'
    ensures HasSuffix(s, "//") <==> |s| > 1 && s[|s| - 2] == '/' && s[|s| - 1] == '/'
  {
    if |s| > 0 {
      assert s[..1] == [s[0]];
      assert s[|s| - 1..] == [s[|s| - 1]];
    }
    if |s| > 1 {
      assert s[|s| - 2..] == [s[|s| - 2], s[|s| - 1]];
    }
  }

  /** A target path made absolute by a leading "/", with one trailing "/" dropped. */
  function NormalizeTarget(target: string): (r: string)
    ensures |r| > 0 ==> r[0] == '/'
    ensures var rooted := if |target| > 0 && target[0] == '/' then target else "/" + target;
            && (HasSuffix(rooted, "/") ==> r + "/" == rooted)
            && (!HasSuffix(rooted, "/") ==> r == rooted)
    ensures |r| > 0 && r[|r| - 1] == '/' ==> HasSuffix(target, "//")
  {
    SlashEnds(target);
    var rooted := if |target| > 0 && target[0] == '/' then target else "/" + target;
    SlashEnds(rooted);
    if rooted[|rooted| - 1] == '/' then rooted[..|rooted| - 1] else rooted
  }

  lemma NormalizeTargetExamples()
    ensures NormalizeTarget("build/") == "/build"
    ensures NormalizeTarget("/_build") == "/_build"
    ensures NormalizeTarget("/") == ""
    ensures NormalizeTarget("a//") == "/a/" && NormalizeTarget("/a/") == "/a"
  {
    NormalizeRelative();
    NormalizeDoubleSlash();
    assert NormalizeTarget("/") == "/"[..0];
    assert NormalizeTarget("/a/") == "/a/"[..2];
  }

  lemma NormalizeRelative()
    ensures NormalizeTarget("build/") == "/build"
  {
    assert NormalizeTarget("build/") == ("/" + "build/")[..6];
  }

  lemma NormalizeDoubleSlash()
    ensures NormalizeTarget("a//") == "/a/"
  {
    assert NormalizeTarget("a//") == ("/" + "a//")[..3];
  }

  /** Normalising twice changes nothing, except for paths ending in "//", which lose one
      "/" per application ("a//" gives "/a/", then "/a"). */
  lemma NormalizeTargetIdempotent(target: string)
    requires !HasSuffix(target, "//")
    ensures NormalizeTarget(NormalizeTarget(target)) == NormalizeTarget(target)
  {
  }

  /** One inline argument: a keyword sets its flag ("sass" only with sass support),
      any other word is a source. */
  function ApplyArg(cfg: Config, word: string, sassSupport: bool): (r: Result<Config, ParseError>)
    ensures r.Err? <==> word == "sass" && !sassSupport
    ensures r.Err? ==> r.error == SassUnsupported
    ensures r.Ok? ==> r.value.sources == cfg.sources + (if word in InlineKeywords then [] else [word])
    ensures r.Ok? ==> r.value.target == cfg.target
    ensures r.Ok? ==> r.value.autoReload == (cfg.autoReload || word == "live_reload")
    ensures r.Ok? ==> r.value.sass == (cfg.sass || word == "sass")
    ensures r.Ok? ==> r.value.env == (cfg.env || word == "env")
  {
    match word
    case "live_reload" => Ok(cfg.(autoReload := true))
    case "sass" => if !sassSupport then Err(SassUnsupported) else Ok(cfg.(sass := true))
    case "env" => Ok(cfg.(env := true))
    case _ => Ok(cfg.(sources := cfg.sources + [word]))
  }

  /** One block directive with its argument, if it has one on its line. Unknown words are
      ignored; "target" replaces any earlier target. */
  function ApplyDirective(cfg: Config, word: string, arg: Option<string>, sassSupport: bool): (r: Result<Config, ParseError>)
    ensures word == "source" ==> r == (if arg.None? then Err(SourceNeedsFilename) else Ok(cfg.(sources := cfg.sources + [arg.value])))
    ensures word == "target" ==> r == (if arg.None? then Err(TargetNeedsPath) else Ok(cfg.(target := NormalizeTarget(arg.value))))
    ensures word == "sass" ==> r == (if sassSupport then Ok(cfg.(sass := true)) else Err(SassUnsupported))
    ensures word == "auto_reload" ==> r == Ok(cfg.(autoReload := true))
    ensures word == "env" ==> r == Ok(cfg.(env := true))
    ensures word !in {"auto_reload", "sass", "env", "source", "target"} ==> r == Ok(cfg)
  {
    match word
    case "auto_reload" => Ok(cfg.(autoReload := true))
    case "sass" => if !sassSupport then Err(SassUnsupported) else Ok(cfg.(sass := true))
    case "env" => Ok(cfg.(env := true))
    case "source" => if arg.None? then Err(SourceNeedsFilename) else Ok(cfg.(sources := cfg.sources + [arg.value]))
    case "target" => if arg.None? then Err(TargetNeedsPath) else Ok(cfg.(target := NormalizeTarget(arg.value)))
    case _ => Ok(cfg)
  }

  /** The inline loop from cursor c: the configuration and the cursor it ends with. */
  function InlinePhase(tokens: seq<Token>, c: nat, cfg: Config, sassSupport: bool): (r: Result<(Config, nat), ParseError>)
    requires c < |tokens|
    ensures r.Ok? ==> c <= r.value.1 < |tokens|
    decreases |tokens| - c
  {
    if !HasArg(tokens, c) then Ok((cfg, c))
    else
      match ApplyArg(cfg, tokens[c + 1].text, sassSupport)
      case Err(e) => Err(e)
      case Ok(next) => InlinePhase(tokens, c + 1, next, sassSupport)
  }

  /** The block loop after the token at cursor c, at the given brace depth: a "}" that
      closes the outermost block ends it, as does the end of the stream. */
  function BlockPhase(tokens: seq<Token>, c: nat, nesting: nat, cfg: Config, sassSupport: bool): Result<Config, ParseError>
    requires c < |tokens| && nesting >= 1
    decreases |tokens| - c, 0
  {
    if c + 1 >= |tokens| then Ok(cfg)
    else
      var word := tokens[c + 1].text;
      if word == "}" && nesting == 1 then Ok(cfg)
      else
        var level := if word == "}" then nesting - 1 else if word == "{" then nesting + 1 else nesting;
        DirectiveAt(tokens, c + 1, level, cfg, sassSupport)
  }

  /** The block directive at cursor d: the configuration after it and the cursor after
      its argument, if it took one. */
  function DirectiveStep(tokens: seq<Token>, d: nat, cfg: Config, sassSupport: bool): (r: Result<(Config, nat), ParseError>)
    requires d < |tokens|
    ensures r.Ok? ==> d <= r.value.1 < |tokens|
  {
    var dir := DirectiveOf(tokens, d);
    match ApplyDirective(cfg, dir.word, dir.arg, sassSupport)
    case Err(e) => Err(e)
    case Ok(cfg') => Ok((cfg', if dir.arg.Some? then d + 1 else d))
  }

  /** A block directive as read: its word, and its argument when it takes one and one
      follows on its line. */
  datatype Directive = Directive(word: string, arg: Option<string>)

  function DirectiveOf(tokens: seq<Token>, d: nat): (dir: Directive)
    requires d < |tokens|
    ensures dir.arg.Some? ==> d + 1 < |tokens|
  {
    var word := tokens[d].text;
    Directive(word, if TakesArg(word) && HasArg(tokens, d) then Some(tokens[d + 1].text) else None)
  }

  /** The block directive at cursor d, then the rest of the block. */
  function DirectiveAt(tokens: seq<Token>, d: nat, nesting: nat, cfg: Config, sassSupport: bool): Result<Config, ParseError>
    requires d < |tokens| && nesting >= 1
    decreases |tokens| - d, 1
  {
    match DirectiveStep(tokens, d, cfg, sassSupport)
    case Err(e) => Err(e)
    case Ok((cfg', next)) => BlockPhase(tokens, next, nesting, cfg', sassSupport)
  }

  /** What the directive parses to: the inline arguments first, then the block, if a "{"
      ends the directive's line and is followed by something other than "}". */
  function Parse(tokens: seq<Token>, sassSupport: bool): Result<Config, ParseError> {
    if tokens == [] then Err(ArgErr)
    else
      match InlinePhase(tokens, 0, Defaults, sassSupport)
      case Err(e) => Err(e)
      case Ok((cfg, c)) =>
        if !OpensBlock(tokens, c) || c + 2 >= |tokens| || tokens[c + 2].text == "}" then Ok(cfg)
        else DirectiveAt(tokens, c + 2, 1, cfg, sassSupport)
  }

  /** The directives the block loop visits from cursor d at the given depth, in token
      order, up to the "}" that closes the block or the end of the stream. The cursor
      moves by tokens alone, so the list does not depend on the configuration. */
  function Directives(tokens: seq<Token>, d: nat, nesting: nat): (dirs: seq<Directive>)
    requires d < |tokens| && nesting >= 1
    ensures |dirs| > 0 && dirs[0] == DirectiveOf(tokens, d)
    decreases |tokens| - d, 1
  {
    var dir := DirectiveOf(tokens, d);
    [dir] + DirectivesAfter(tokens, if dir.arg.Some? then d + 1 else d, nesting)
  }

  /** The directives visited after the token at cursor c, as `BlockPhase` moves on. */
  function DirectivesAfter(tokens: seq<Token>, c: nat, nesting: nat): seq<Directive>
    requires c < |tokens| && nesting >= 1
    decreases |tokens| - c, 0
  {
    if c + 1 >= |tokens| then []
    else
      var word := tokens[c + 1].text;
      if word == "}" && nesting == 1 then []
      else
        var level := if word == "}" then nesting - 1 else if word == "{" then nesting + 1 else nesting;
        Directives(tokens, c + 1, level)
  }

  /** The cursor the inline loop stops at: the last argument on the directive's line. */
  function InlineEnd(tokens: seq<Token>, c: nat): (e: nat)
    requires c < |tokens|
    ensures c <= e < |tokens| && !HasArg(tokens, e)
    decreases |tokens| - c
  {
    if !HasArg(tokens, c) then c else InlineEnd(tokens, c + 1)
  }

  /** The directives of the directive's block; none when no block follows. */
  function BlockDirectives(tokens: seq<Token>): seq<Directive> {
    if tokens == [] then []
    else
      var c := InlineEnd(tokens, 0);
      if !OpensBlock(tokens, c) || c + 2 >= |tokens| || tokens[c + 2].text == "}" then []
      else Directives(tokens, c + 2, 1)
  }

  /** The block directives applied in turn, stopping at the first error. */
  function ApplyDirectives(cfg: Config, dirs: seq<Directive>, sassSupport: bool): Result<Config, ParseError>
    decreases |dirs|
  {
    if dirs == [] then Ok(cfg)
    else
      match ApplyDirective(cfg, dirs[0].word, dirs[0].arg, sassSupport)
      case Err(e) => Err(e)
      case Ok(next) => ApplyDirectives(next, dirs[1..], sassSupport)
  }

  /** A directive that is an error on its own: "source" or "target" without an
      argument, or "sass" without sass support. */
  predicate Fails(dir: Directive, sassSupport: bool) {
    (TakesArg(dir.word) && dir.arg.None?) || (dir.word == "sass" && !sassSupport)
  }

  /** The words of the directives, in order. */
  function Words(dirs: seq<Directive>): (words: seq<string>)
    ensures |words| == |dirs| && forall i :: 0 <= i < |dirs| ==> words[i] == dirs[i].word
  {
    seq(|dirs|, i requires 0 <= i < |dirs| => dirs[i].word)
  }

  /** The arguments of the "source" directives, in order. */
  function SourceArgs(dirs: seq<Directive>): seq<string>
    decreases |dirs|
  {
    if dirs == [] then []
    else (if dirs[0].word == "source" && dirs[0].arg.Some? then [dirs[0].arg.value] else []) + SourceArgs(dirs[1..])
  }

  /** Directive i is a "target" and no later one is. */
  predicate IsLastTarget(dirs: seq<Directive>, i: int) {
    0 <= i < |dirs| && dirs[i].word == "target" && forall j :: i < j < |dirs| ==> dirs[j].word != "target"
  }

  /** The switch over one block directive at cursor d: the configuration after it and
      the cursor after its argument. */
  method HandleDirective(tokens: seq<Token>, d: nat, esbuild: Config, hasSassSupport: bool)
    returns (r: Result<(Config, nat), ParseError>)
    requires d < |tokens|
    ensures r == DirectiveStep(tokens, d, esbuild, hasSassSupport)
  {
    var cursor := d;
    var esbuild := esbuild;
    var val := tokens[cursor].text;
    if val == "auto_reload" {
      esbuild := esbuild.(autoReload := true);
    } else if val == "sass" {
      if !hasSassSupport {
        return Err(SassUnsupported);
      }
      esbuild := esbuild.(sass := true);
    } else if val == "env" {
      esbuild := esbuild.(env := true);
    } else if val == "source" {
      if !HasArg(tokens, cursor) {
        return Err(SourceNeedsFilename);
      }
      cursor := cursor + 1;
      var source := tokens[cursor].text;
      esbuild := esbuild.(sources := esbuild.sources + [source]);
    } else if val == "target" {
      if !HasArg(tokens, cursor) {
        return Err(TargetNeedsPath);
      }
      cursor := cursor + 1;
      var target := RewriteTarget(tokens[cursor].text);
      esbuild := esbuild.(target := target);
    }
    return Ok((esbuild, cursor));
  }

  /** The in-place rewrite of a target argument: root it, then drop one trailing "/". */
  method RewriteTarget(given: string) returns (target: string)
    ensures target == NormalizeTarget(given)
  {
    target := given;
    if !HasPrefix(target, "/") {
      target := "/" + target;
    }
    if HasSuffix(target, "/") {
      target := target[..|target| - 1];
    }
  }

  /** parseCaddyfileEsbuild: the defaults, the inline loop, then the block loop driven
      by NextBlock. */
  method ParseCaddyfileEsbuild(tokens: seq<Token>, hasSassSupport: bool) returns (r: Result<Config, ParseError>)
    ensures r == Parse(tokens, hasSassSupport)
  {
    if |tokens| == 0 {
      return Err(ArgErr);
    }
    var inline := ParseInlineArgs(tokens, hasSassSupport);
    if inline.Err? {
      return Err(inline.error);
    }
    var (esbuild, cursor) := inline.value;
    // the first NextBlock: a "{" must end the directive's line
    if !OpensBlock(tokens, cursor) || cursor + 2 >= |tokens| || tokens[cursor + 2].text == "}" {
      return Ok(esbuild);
    }
    r := ParseBlock(tokens, cursor + 2, esbuild, hasSassSupport);
  }

  /** The inline loop: every argument on the directive's line, from the defaults. */
  method ParseInlineArgs(tokens: seq<Token>, hasSassSupport: bool) returns (r: Result<(Config, nat), ParseError>)
    requires |tokens| > 0
    ensures r == InlinePhase(tokens, 0, Defaults, hasSassSupport)
  {
    var esbuild := Config([], "/_build", false, false, false);
    var cursor := 0;
    while HasArg(tokens, cursor)
      invariant cursor < |tokens|
      invariant InlinePhase(tokens, cursor, esbuild, hasSassSupport) == InlinePhase(tokens, 0, Defaults, hasSassSupport)
      decreases |tokens| - cursor
    {
      cursor := cursor + 1;
      var val := tokens[cursor].text;
      if val == "live_reload" {
        esbuild := esbuild.(autoReload := true);
      } else if val == "sass" {
        if !hasSassSupport {
          return Err(SassUnsupported);
        }
        esbuild := esbuild.(sass := true);
      } else if val == "env" {
        esbuild := esbuild.(env := true);
      } else {
        esbuild := esbuild.(sources := esbuild.sources + [val]);
      }
    }
    return Ok((esbuild, cursor));
  }

  /** The block loop from its first directive at cursor d, one directive per iteration;
      NextBlock moves one token on and tracks the brace depth. */
  method ParseBlock(tokens: seq<Token>, d: nat, inline: Config, hasSassSupport: bool) returns (r: Result<Config, ParseError>)
    requires d < |tokens|
    ensures r == DirectiveAt(tokens, d, 1, inline, hasSassSupport)
  {
    var esbuild := inline;
    var cursor := d;
    var nesting := 1;
    while true
      invariant cursor < |tokens| && nesting >= 1
      invariant DirectiveAt(tokens, cursor, nesting, esbuild, hasSassSupport) == DirectiveAt(tokens, d, 1, inline, hasSassSupport)
      decreases |tokens| - cursor
    {
      var step := HandleDirective(tokens, cursor, esbuild, hasSassSupport);
      if step.Err? {
        return Err(step.error);
      }
      esbuild, cursor := step.value.0, step.value.1;
      if cursor + 1 >= |tokens| {
        return Ok(esbuild);
      }
      cursor := cursor + 1;
      if tokens[cursor].text == "}" {
        nesting := nesting - 1;
      } else if tokens[cursor].text == "{" {
        nesting := nesting + 1;
      }
      if nesting == 0 {
        return Ok(esbuild);
      }
    }
  }

  /** The words the inline loop consumes from cursor c. */
  function InlineWords(tokens: seq<Token>, c: nat): seq<string>
    requires c < |tokens|
    decreases |tokens| - c
  {
    if !HasArg(tokens, c) then [] else [tokens[c + 1].text] + InlineWords(tokens, c + 1)
  }

  /** The inline arguments from cursor c that are not keywords, in order. */
  function InlineSources(tokens: seq<Token>, c: nat): seq<string>
    requires c < |tokens|
    decreases |tokens| - c
  {
    if !HasArg(tokens, c) then []
    else
      var word := tokens[c + 1].text;
      (if word in InlineKeywords then [] else [word]) + InlineSources(tokens, c + 1)
  }

  /** The inline loop fails exactly when "sass" is given without sass support. */
  lemma {:induction false} InlinePhaseFails(tokens: seq<Token>, c: nat, cfg: Config, sassSupport: bool)
    requires c < |tokens|
    ensures InlinePhase(tokens, c, cfg, sassSupport).Err? <==> !sassSupport && "sass" in InlineWords(tokens, c)
    decreases |tokens| - c
  {
    if HasArg(tokens, c) {
      var word := tokens[c + 1].text;
      assert InlineWords(tokens, c) == [word] + InlineWords(tokens, c + 1);
      match ApplyArg(cfg, word, sassSupport)
      case Err(_) =>
      case Ok(next) =>
        InlinePhaseFails(tokens, c + 1, next, sassSupport);
    }
  }

  /** Otherwise the inline loop appends the non-keyword words to the sources, in order. */
  lemma {:induction false} InlinePhaseSources(tokens: seq<Token>, c: nat, cfg: Config, sassSupport: bool)
    requires c < |tokens|
    requires InlinePhase(tokens, c, cfg, sassSupport).Ok?
    ensures InlinePhase(tokens, c, cfg, sassSupport).value.0.sources == cfg.sources + InlineSources(tokens, c)
    decreases |tokens| - c
  {
    if HasArg(tokens, c) {
      var word := tokens[c + 1].text;
      var own := if word in InlineKeywords then [] else [word];
      var next := ApplyArg(cfg, word, sassSupport).value;
      InlinePhaseSources(tokens, c + 1, next, sassSupport);
      assert (cfg.sources + own) + InlineSources(tokens, c + 1) == cfg.sources + (own + InlineSources(tokens, c + 1));
    }
  }

  /** ... sets exactly the flags whose keywords occur among the words, and leaves the
      target alone. */
  lemma {:induction false} InlinePhaseFlags(tokens: seq<Token>, c: nat, cfg: Config, sassSupport: bool)
    requires c < |tokens|
    requires InlinePhase(tokens, c, cfg, sassSupport).Ok?
    ensures var after := InlinePhase(tokens, c, cfg, sassSupport).value.0;
            && after.autoReload == (cfg.autoReload || "live_reload" in InlineWords(tokens, c))
            && after.sass == (cfg.sass || "sass" in InlineWords(tokens, c))
            && after.env == (cfg.env || "env" in InlineWords(tokens, c))
            && after.target == cfg.target
    decreases |tokens| - c
  {
    if HasArg(tokens, c) {
      var word := tokens[c + 1].text;
      var next := ApplyArg(cfg, word, sassSupport).value;
      InlinePhaseFlags(tokens, c + 1, next, sassSupport);
      assert InlineWords(tokens, c) == [word] + InlineWords(tokens, c + 1);
    }
  }

  /** The block only appends to the sources: what the inline arguments gave stays in
      front, in order. */
  lemma {:induction false} BlockPhaseKeepsSources(tokens: seq<Token>, c: nat, nesting: nat, cfg: Config, sassSupport: bool)
    requires c < |tokens| && nesting >= 1
    ensures BlockPhase(tokens, c, nesting, cfg, sassSupport).Ok? ==>
              cfg.sources <= BlockPhase(tokens, c, nesting, cfg, sassSupport).value.sources
    decreases |tokens| - c, 0
  {
    if c + 1 < |tokens| {
      var word := tokens[c + 1].text;
      if !(word == "}" && nesting == 1) {
        var level := if word == "}" then nesting - 1 else if word == "{" then nesting + 1 else nesting;
        DirectiveKeepsSources(tokens, c + 1, level, cfg, sassSupport);
      }
    }
  }

  lemma {:induction false} DirectiveKeepsSources(tokens: seq<Token>, d: nat, nesting: nat, cfg: Config, sassSupport: bool)
    requires d < |tokens| && nesting >= 1
    ensures DirectiveAt(tokens, d, nesting, cfg, sassSupport).Ok? ==>
              cfg.sources <= DirectiveAt(tokens, d, nesting, cfg, sassSupport).value.sources
    decreases |tokens| - d, 1
  {
    match DirectiveStep(tokens, d, cfg, sassSupport)
    case Err(_) =>
    case Ok((cfg', next)) =>
      BlockPhaseKeepsSources(tokens, next, nesting, cfg', sassSupport);
      assert cfg.sources <= cfg'.sources;
  }

  /** The sources of a parsed directive start with its inline sources, in order; block
      sources follow. */
  lemma ParseSourcesStartInline(tokens: seq<Token>, sassSupport: bool)
    requires Parse(tokens, sassSupport).Ok?
    ensures InlineSources(tokens, 0) <= Parse(tokens, sassSupport).value.sources
  {
    InlinePhaseSources(tokens, 0, Defaults, sassSupport);
    var (cfg, c) := InlinePhase(tokens, 0, Defaults, sassSupport).value;
    if !(!OpensBlock(tokens, c) || c + 2 >= |tokens| || tokens[c + 2].text == "}") {
      DirectiveKeepsSources(tokens, c + 2, 1, cfg, sassSupport);
    }
  }

  /** The block loop applies the directives it visits in turn. */
  lemma {:induction false} DirectiveAtApplies(tokens: seq<Token>, d: nat, nesting: nat, cfg: Config, sassSupport: bool)
    requires d < |tokens| && nesting >= 1
    ensures DirectiveAt(tokens, d, nesting, cfg, sassSupport) == ApplyDirectives(cfg, Directives(tokens, d, nesting), sassSupport)
    decreases |tokens| - d, 1
  {
    var dir := DirectiveOf(tokens, d);
    var dirs := Directives(tokens, d, nesting);
    match DirectiveStep(tokens, d, cfg, sassSupport)
    case Err(_) =>
    case Ok((next, after)) =>
      assert dirs[1..] == DirectivesAfter(tokens, after, nesting);
      BlockPhaseApplies(tokens, after, nesting, next, sassSupport);
  }

  lemma {:induction false} BlockPhaseApplies(tokens: seq<Token>, c: nat, nesting: nat, cfg: Config, sassSupport: bool)
    requires c < |tokens| && nesting >= 1
    ensures BlockPhase(tokens, c, nesting, cfg, sassSupport) == ApplyDirectives(cfg, DirectivesAfter(tokens, c, nesting), sassSupport)
    decreases |tokens| - c, 0
  {
    if c + 1 < |tokens| {
      var word := tokens[c + 1].text;
      if !(word == "}" && nesting == 1) {
        var level := if word == "}" then nesting - 1 else if word == "{" then nesting + 1 else nesting;
        DirectiveAtApplies(tokens, c + 1, level, cfg, sassSupport);
      }
    }
  }

  /** The inline loop, when it succeeds, stops at `InlineEnd`. */
  lemma {:induction false} InlinePhaseEnd(tokens: seq<Token>, c: nat, cfg: Config, sassSupport: bool)
    requires c < |tokens|
    requires InlinePhase(tokens, c, cfg, sassSupport).Ok?
    ensures InlinePhase(tokens, c, cfg, sassSupport).value.1 == InlineEnd(tokens, c)
    decreases |tokens| - c
  {
    if HasArg(tokens, c) {
      InlinePhaseEnd(tokens, c + 1, ApplyArg(cfg, tokens[c + 1].text, sassSupport).value, sassSupport);
    }
  }

  /** A parse is the inline phase followed by the block's directives. */
  lemma ParseIsInlineThenBlock(tokens: seq<Token>, sassSupport: bool)
    requires tokens != [] && InlinePhase(tokens, 0, Defaults, sassSupport).Ok?
    ensures Parse(tokens, sassSupport)
            == ApplyDirectives(InlinePhase(tokens, 0, Defaults, sassSupport).value.0, BlockDirectives(tokens), sassSupport)
  {
    var inline := InlinePhase(tokens, 0, Defaults, sassSupport);
    InlinePhaseEnd(tokens, 0, Defaults, sassSupport);
    var cfg, c := inline.value.0, inline.value.1;
    assert c == InlineEnd(tokens, 0);
    if !OpensBlock(tokens, c) || c + 2 >= |tokens| || tokens[c + 2].text == "}" {
      assert Parse(tokens, sassSupport) == Ok(cfg);
      assert BlockDirectives(tokens) == [];
    } else {
      assert Parse(tokens, sassSupport) == DirectiveAt(tokens, c + 2, 1, cfg, sassSupport);
      assert BlockDirectives(tokens) == Directives(tokens, c + 2, 1);
      DirectiveAtApplies(tokens, c + 2, 1, cfg, sassSupport);
    }
  }

  /** Applying directives fails exactly when one of them fails on its own. */
  lemma {:induction false} ApplyDirectivesFails(cfg: Config, dirs: seq<Directive>, sassSupport: bool)
    ensures ApplyDirectives(cfg, dirs, sassSupport).Err? <==> exists i :: 0 <= i < |dirs| && Fails(dirs[i], sassSupport)
    decreases |dirs|
  {
    if dirs != [] {
      var rest := dirs[1..];
      match ApplyDirective(cfg, dirs[0].word, dirs[0].arg, sassSupport)
      case Err(_) =>
        assert Fails(dirs[0], sassSupport);
      case Ok(next) =>
        assert !Fails(dirs[0], sassSupport);
        ApplyDirectivesFails(next, rest, sassSupport);
        if exists i :: 0 <= i < |dirs| && Fails(dirs[i], sassSupport) {
          var i :| 0 <= i < |dirs| && Fails(dirs[i], sassSupport);
          assert Fails(rest[i - 1], sassSupport);
        }
        if exists i :: 0 <= i < |rest| && Fails(rest[i], sassSupport) {
          var i :| 0 <= i < |rest| && Fails(rest[i], sassSupport);
          assert Fails(dirs[i + 1], sassSupport);
        }
    }
  }

  /** ... and otherwise appends the "source" arguments to the sources, in order. */
  lemma {:induction false} ApplyDirectivesSources(cfg: Config, dirs: seq<Directive>, sassSupport: bool)
    requires ApplyDirectives(cfg, dirs, sassSupport).Ok?
    ensures ApplyDirectives(cfg, dirs, sassSupport).value.sources == cfg.sources + SourceArgs(dirs)
    decreases |dirs|
  {
    if dirs != [] {
      var next := ApplyDirective(cfg, dirs[0].word, dirs[0].arg, sassSupport).value;
      var own := if dirs[0].word == "source" && dirs[0].arg.Some? then [dirs[0].arg.value] else [];
      assert next.sources == cfg.sources + own;
      ApplyDirectivesSources(next, dirs[1..], sassSupport);
      assert (cfg.sources + own) + SourceArgs(dirs[1..]) == cfg.sources + (own + SourceArgs(dirs[1..]));
    }
  }

  /** ... sets each flag when its directive occurs, and keeps it otherwise. */
  lemma {:induction false} ApplyDirectivesFlags(cfg: Config, dirs: seq<Directive>, sassSupport: bool)
    requires ApplyDirectives(cfg, dirs, sassSupport).Ok?
    ensures var after := ApplyDirectives(cfg, dirs, sassSupport).value;
            && after.autoReload == (cfg.autoReload || "auto_reload" in Words(dirs))
            && after.sass == (cfg.sass || "sass" in Words(dirs))
            && after.env == (cfg.env || "env" in Words(dirs))
    decreases |dirs|
  {
    if dirs != [] {
      var next := ApplyDirective(cfg, dirs[0].word, dirs[0].arg, sassSupport).value;
      ApplyDirectivesFlags(next, dirs[1..], sassSupport);
      assert Words(dirs) == [dirs[0].word] + Words(dirs[1..]);
    }
  }

  /** ... leaves the target as it was when no directive is a "target" ... */
  lemma {:induction false} ApplyDirectivesKeepTarget(cfg: Config, dirs: seq<Directive>, sassSupport: bool)
    requires ApplyDirectives(cfg, dirs, sassSupport).Ok?
    requires "target" !in Words(dirs)
    ensures ApplyDirectives(cfg, dirs, sassSupport).value.target == cfg.target
    decreases |dirs|
  {
    if dirs != [] {
      var next := ApplyDirective(cfg, dirs[0].word, dirs[0].arg, sassSupport).value;
      assert Words(dirs) == [dirs[0].word] + Words(dirs[1..]);
      ApplyDirectivesKeepTarget(next, dirs[1..], sassSupport);
    }
  }

  /** ... and otherwise leaves it normalised from the last "target" directive. */
  lemma {:induction false} ApplyDirectivesTarget(cfg: Config, dirs: seq<Directive>, sassSupport: bool, i: nat)
    requires ApplyDirectives(cfg, dirs, sassSupport).Ok?
    requires IsLastTarget(dirs, i)
    ensures dirs[i].arg.Some? && ApplyDirectives(cfg, dirs, sassSupport).value.target == NormalizeTarget(dirs[i].arg.value)
    decreases |dirs|
  {
    var rest := dirs[1..];
    var next := ApplyDirective(cfg, dirs[0].word, dirs[0].arg, sassSupport).value;
    assert ApplyDirectives(cfg, dirs, sassSupport) == ApplyDirectives(next, rest, sassSupport);
    if i == 0 {
      assert "target" !in Words(rest);
      ApplyDirectivesKeepTarget(next, rest, sassSupport);
    } else {
      assert IsLastTarget(rest, i - 1);
      ApplyDirectivesTarget(next, rest, sassSupport, i - 1);
    }
  }

  /** A directive fails to parse exactly when it is missing, when "sass" is among its
      arguments without sass support, or when one of its block directives fails. */
  lemma ParseFails(tokens: seq<Token>, sassSupport: bool)
    ensures Parse(tokens, sassSupport).Err? <==>
              || tokens == []
              || (!sassSupport && "sass" in InlineWords(tokens, 0))
              || exists i :: 0 <= i < |BlockDirectives(tokens)| && Fails(BlockDirectives(tokens)[i], sassSupport)
  {
    if tokens != [] {
      InlinePhaseFails(tokens, 0, Defaults, sassSupport);
      if InlinePhase(tokens, 0, Defaults, sassSupport).Ok? {
        ParseIsInlineThenBlock(tokens, sassSupport);
        ApplyDirectivesFails(InlinePhase(tokens, 0, Defaults, sassSupport).value.0, BlockDirectives(tokens), sassSupport);
      }
    }
  }

  /** The sources are the inline sources followed by the block's "source" arguments, in
      token order. */
  lemma ParseSources(tokens: seq<Token>, sassSupport: bool)
    requires Parse(tokens, sassSupport).Ok?
    ensures Parse(tokens, sassSupport).value.sources == InlineSources(tokens, 0) + SourceArgs(BlockDirectives(tokens))
  {
    var inline := InlinePhase(tokens, 0, Defaults, sassSupport).value.0;
    InlinePhaseSources(tokens, 0, Defaults, sassSupport);
    ParseIsInlineThenBlock(tokens, sassSupport);
    ApplyDirectivesSources(inline, BlockDirectives(tokens), sassSupport);
    assert inline.sources == [] + InlineSources(tokens, 0) == InlineSources(tokens, 0);
  }

  /** Each flag is on exactly when its inline keyword or its block directive occurs. */
  lemma ParseFlags(tokens: seq<Token>, sassSupport: bool)
    requires Parse(tokens, sassSupport).Ok?
    ensures var cfg := Parse(tokens, sassSupport).value;
            && cfg.autoReload == ("live_reload" in InlineWords(tokens, 0) || "auto_reload" in Words(BlockDirectives(tokens)))
            && cfg.sass == ("sass" in InlineWords(tokens, 0) || "sass" in Words(BlockDirectives(tokens)))
            && cfg.env == ("env" in InlineWords(tokens, 0) || "env" in Words(BlockDirectives(tokens)))
  {
    InlinePhaseFlags(tokens, 0, Defaults, sassSupport);
    ParseIsInlineThenBlock(tokens, sassSupport);
    ApplyDirectivesFlags(InlinePhase(tokens, 0, Defaults, sassSupport).value.0, BlockDirectives(tokens), sassSupport);
  }

  /** The last "target" directive of the block wins, normalised; without one the target
      is "/_build". */
  lemma ParseTarget(tokens: seq<Token>, sassSupport: bool)
    requires Parse(tokens, sassSupport).Ok?
    ensures "target" !in Words(BlockDirectives(tokens)) ==> Parse(tokens, sassSupport).value.target == "/_build"
    ensures forall i :: IsLastTarget(BlockDirectives(tokens), i) ==>
              && BlockDirectives(tokens)[i].arg.Some?
              && Parse(tokens, sassSupport).value.target == NormalizeTarget(BlockDirectives(tokens)[i].arg.value)
  {
    var inline := InlinePhase(tokens, 0, Defaults, sassSupport).value.0;
    var dirs := BlockDirectives(tokens);
    InlinePhaseFlags(tokens, 0, Defaults, sassSupport);
    ParseIsInlineThenBlock(tokens, sassSupport);
    if "target" !in Words(dirs) {
      ApplyDirectivesKeepTarget(inline, dirs, sassSupport);
    }
    forall i | IsLastTarget(dirs, i)
      ensures dirs[i].arg.Some? && Parse(tokens, sassSupport).value.target == NormalizeTarget(dirs[i].arg.value)
    {
      ApplyDirectivesTarget(inline, dirs, sassSupport, i);
    }
  }

  /** A bare directive gives the defaults; no directive token is an argument error. */
  lemma ParseDefaults(name: Token, sassSupport: bool)
    ensures Parse([name], sassSupport) == Ok(Defaults)
    ensures Parse([], sassSupport) == Err(ArgErr)
  {
  }

  /** Worked example: inline sources come before block sources and the last target wins.

          esbuild a.js live_reload {
              source b.js
              target x/
              target /y/
          }                                                                  */
  const Example := [Token("esbuild", 0), Token("a.js", 0), Token("live_reload", 0), Token("{", 0),
                    Token("source", 1), Token("b.js", 1),
                    Token("target", 2), Token("x/", 2),
                    Token("target", 3), Token("/y/", 3),
                    Token("}", 4)]

  lemma ParseExample(sassSupport: bool)
    ensures Parse(Example, sassSupport) == Ok(Config(["a.js", "b.js"], "/y", true, false, false))
  {
    ExampleInline(sassSupport);
    ExampleBlock(sassSupport);
    assert OpensBlock(Example, 2) && Example[4].text != "}";
  }

  lemma ExampleInline(sassSupport: bool)
    ensures InlinePhase(Example, 0, Defaults, sassSupport) == Ok((Config(["a.js"], "/_build", true, false, false), 2))
  {
    var inline := Config(["a.js"], "/_build", true, false, false);
    var first := Defaults.(sources := ["a.js"]);
    assert ApplyArg(Defaults, "a.js", sassSupport) == Ok(first) by {
      assert "a.js" !in InlineKeywords && [] + ["a.js"] == ["a.js"];
    }
    assert ApplyArg(first, "live_reload", sassSupport) == Ok(inline);
    assert !HasArg(Example, 2);
    assert InlinePhase(Example, 1, first, sassSupport) == InlinePhase(Example, 2, inline, sassSupport) == Ok((inline, 2));
  }

  lemma ExampleBlock(sassSupport: bool)
    ensures DirectiveAt(Example, 4, 1, Config(["a.js"], "/_build", true, false, false), sassSupport)
            == Ok(Config(["a.js", "b.js"], "/y", true, false, false))
  {
    var inline := Config(["a.js"], "/_build", true, false, false);
    var c1 := inline.(sources := ["a.js", "b.js"]);
    assert DirectiveStep(Example, 4, inline, sassSupport) == Ok((c1, 5)) by {
      assert HasArg(Example, 4);
      assert ["a.js"] + ["b.js"] == ["a.js", "b.js"];
    }
    ExampleTargets(sassSupport);
  }

  lemma ExampleTargets(sassSupport: bool)
    ensures DirectiveAt(Example, 6, 1, Config(["a.js", "b.js"], "/_build", true, false, false), sassSupport)
            == Ok(Config(["a.js", "b.js"], "/y", true, false, false))
  {
    var c1 := Config(["a.js", "b.js"], "/_build", true, false, false);
    var done := c1.(target := "/y");
    ExampleTargetX(sassSupport);
    ExampleTargetY(sassSupport);
    assert DirectiveAt(Example, 8, 1, c1.(target := "/x"), sassSupport) == BlockPhase(Example, 9, 1, done, sassSupport);
    assert BlockPhase(Example, 9, 1, done, sassSupport) == Ok(done);
  }

  lemma ExampleTargetX(sassSupport: bool)
    ensures DirectiveStep(Example, 6, Config(["a.js", "b.js"], "/_build", true, false, false), sassSupport)
            == Ok((Config(["a.js", "b.js"], "/x", true, false, false), 7))
  {
    assert NormalizeTarget("x/") == ("/" + "x/")[..2] == "/x";
    assert HasArg(Example, 6);
    assert DirectiveOf(Example, 6) == Directive("target", Some("x/"));
    var c1 := Config(["a.js", "b.js"], "/_build", true, false, false);
    assert ApplyDirective(c1, "target", Some("x/"), sassSupport) == Ok(c1.(target := "/x"));
  }

  lemma ExampleTargetY(sassSupport: bool)
    ensures DirectiveStep(Example, 8, Config(["a.js", "b.js"], "/x", true, false, false), sassSupport)
            == Ok((Config(["a.js", "b.js"], "/y", true, false, false), 9))
  {
    assert NormalizeTarget("/y/") == "/y/"[..2] == "/y";
    assert HasArg(Example, 8);
    assert DirectiveOf(Example, 8) == Directive("target", Some("/y/"));
    var c1 := Config(["a.js", "b.js"], "/x", true, false, false);
    assert ApplyDirective(c1, "target", Some("/y/"), sassSupport) == Ok(c1.(target := "/y"));
  }

  /** "source" with nothing after it on its line is an error, even when a file name
      follows on the next line.

          esbuild {
              source
              b.js
          }                                                                  */
  lemma SourceOnItsOwnLineFails(sassSupport: bool)
    ensures Parse([Token("esbuild", 0), Token("{", 0), Token("source", 1), Token("b.js", 2), Token("}", 3)], sassSupport)
            == Err(SourceNeedsFilename)
  {
    var tokens := [Token("esbuild", 0), Token("{", 0), Token("source", 1), Token("b.js", 2), Token("}", 3)];
    assert InlinePhase(tokens, 0, Defaults, sassSupport) == Ok((Defaults, 0));
    assert !HasArg(tokens, 2);
    assert DirectiveStep(tokens, 2, Defaults, sassSupport) == Err(SourceNeedsFilename);
  }
}
