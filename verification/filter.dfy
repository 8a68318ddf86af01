/** The allow/block decision of src/core/services/filter-service.ts. Pattern
    text is newline-separated; each line is trimmed and blank lines dropped.
    A path is processed when it passes the allow stage and is not blocked.
    The glob match itself (minimatch with dot files matchable) is a parameter. */
module Filter {
  import opened Wrappers
  import opened Strings

  /** `matches(pattern, path)`: whether the glob `pattern` matches `path`. */
  type Matcher = (string, string) -> bool

  /** The `copytool` settings the filter reads; `None` is an unset key. */
  datatype Config = Config(
    enableAllowlists: Option<bool>,
    allowlistPatterns: Option<string>,
    enableBlocklists: Option<bool>,
    blocklistPatterns: Option<string>)

  /** Nothing configured. */
  const Unconfigured := Config(None, None, None, None)

  const DefaultAllowText := "**/*"
  const DefaultBlockText := "**/node_modules/**\n**/.git/**"

  /** `.map(p => p.trim()).filter(p => p)`: trim each piece, drop the empty ones. */
  function CleanLines(lines: seq<string>): (r: seq<string>)
    ensures |r| <= |lines|
    ensures forall x :: x in r ==> x != "" && IsTrimmed(x)
  {
    if lines == [] then []
    else
      var t := Trim(lines[0]);
      var rest := CleanLines(lines[1..]);
      if t == "" then rest else [t] + rest
  }

  /** The pattern list of a setting: `text.split('\n').map(trim).filter(nonEmpty)`. */
  function ParsePatterns(text: string): (r: seq<string>)
    ensures forall p :: p in r ==> p != "" && IsTrimmed(p) && '\n' !in p
  {
    CleanKeepsNoNewline(Split(text, '\n'));
    CleanLines(Split(text, '\n'))
  }

  /** No line holds a newline. */
  predicate NoNewlines(lines: seq<string>) {
    forall x :: x in lines ==> '\n' !in x
  }

  /** Trimming and dropping lines brings in no newline. */
  lemma {:induction false} CleanKeepsNoNewline(lines: seq<string>)
    requires NoNewlines(lines)
    ensures NoNewlines(CleanLines(lines))
  {
    if lines != [] {
      CleanKeepsNoNewline(lines[1..]);
    }
  }

  /** `patterns.some(p => matches(p, path))`. */
  function Some(patterns: seq<string>, path: string, matches: Matcher): (r: bool)
    ensures r <==> exists k :: 0 <= k < |patterns| && matches(patterns[k], path)
  {
    if patterns == [] then false
    else matches(patterns[0], path) || Some(patterns[1..], path, matches)
  }

  /** `matchesAllowlist`: disabled (the default) lets everything through;
      enabled, the path must match one of the patterns (by default one that
      matches every path). */
  function MatchesAllowlist(path: string, cfg: Config, matches: Matcher): (r: bool)
    ensures r <==> (!cfg.enableAllowlists.GetOr(false) ||
                    exists p :: p in ParsePatterns(cfg.allowlistPatterns.GetOr(DefaultAllowText)) && matches(p, path))
  {
    SomeMeaning(ParsePatterns(cfg.allowlistPatterns.GetOr(DefaultAllowText)), path, matches);
    if !cfg.enableAllowlists.GetOr(false) then true
    else Some(ParsePatterns(cfg.allowlistPatterns.GetOr(DefaultAllowText)), path, matches)
  }

  /** `matchesBlocklist`: disabled blocks nothing; enabled (the default), the
      path is blocked when it matches one of the patterns (by default anything
      under `node_modules` or `.git`). */
  function MatchesBlocklist(path: string, cfg: Config, matches: Matcher): (r: bool)
    ensures r <==> (cfg.enableBlocklists.GetOr(true) &&
                    exists p :: p in ParsePatterns(cfg.blocklistPatterns.GetOr(DefaultBlockText)) && matches(p, path))
  {
    SomeMeaning(ParsePatterns(cfg.blocklistPatterns.GetOr(DefaultBlockText)), path, matches);
    if !cfg.enableBlocklists.GetOr(true) then false
    else Some(ParsePatterns(cfg.blocklistPatterns.GetOr(DefaultBlockText)), path, matches)
  }

  /** `shouldProcessFile`: the blocklist is consulted only for a path that
      passed the allow stage. */
  function ShouldProcessFile(path: string, cfg: Config, matches: Matcher): (r: bool)
    ensures r ==> MatchesAllowlist(path, cfg, matches) && !MatchesBlocklist(path, cfg, matches)
    ensures !cfg.enableAllowlists.GetOr(false) && !cfg.enableBlocklists.GetOr(true) ==> r
  {
    if MatchesAllowlist(path, cfg, matches) then !MatchesBlocklist(path, cfg, matches)
    else false
  }

  /** The decision spelled out: with the allowlist on, some allow pattern must
      match; with the blocklist on, no block pattern may match. */
  lemma ShouldProcessFileMeaning(path: string, cfg: Config, matches: Matcher)
    ensures ShouldProcessFile(path, cfg, matches) <==>
      && (cfg.enableAllowlists.GetOr(false) ==>
            exists p :: p in ParsePatterns(cfg.allowlistPatterns.GetOr(DefaultAllowText)) && matches(p, path))
      && (cfg.enableBlocklists.GetOr(true) ==>
            forall p :: p in ParsePatterns(cfg.blocklistPatterns.GetOr(DefaultBlockText)) ==> !matches(p, path))
  {
    var allow := ParsePatterns(cfg.allowlistPatterns.GetOr(DefaultAllowText));
    var block := ParsePatterns(cfg.blocklistPatterns.GetOr(DefaultBlockText));
    SomeMeaning(allow, path, matches);
    SomeMeaning(block, path, matches);
    assert MatchesAllowlist(path, cfg, matches) == (!cfg.enableAllowlists.GetOr(false) || Some(allow, path, matches));
    assert MatchesBlocklist(path, cfg, matches) == (cfg.enableBlocklists.GetOr(true) && Some(block, path, matches));
  }

  /** `some` holds exactly when some pattern of the list matches. */
  lemma SomeMeaning(patterns: seq<string>, path: string, matches: Matcher)
    ensures Some(patterns, path, matches) <==> exists p :: p in patterns && matches(p, path)
  {
    if exists p :: p in patterns && matches(p, path) {
      var p :| p in patterns && matches(p, path);
      var k :| 0 <= k < |patterns| && patterns[k] == p;
    }
  }

  /** Text made of trimmed, non-blank lines parses back to exactly those lines,
      in order. */
  lemma {:induction false} ParseJoinedLines(lines: seq<string>)
    requires lines != []
    requires forall k :: 0 <= k < |lines| ==> lines[k] != "" && IsTrimmed(lines[k]) && '\n' !in lines[k]
    ensures ParsePatterns(Join(lines, "\n")) == lines
  {
    SplitJoin(lines, '\n');
    CleanTrimmed(lines);
  }

  lemma {:induction false} CleanTrimmed(lines: seq<string>)
    requires forall k :: 0 <= k < |lines| ==> lines[k] != "" && IsTrimmed(lines[k])
    ensures CleanLines(lines) == lines
  {
    if lines != [] {
      TrimOfTrimmed(lines[0]);
      CleanTrimmed(lines[1..]);
    }
  }

  /** Blank and padded lines do not matter: parsing text whose lines are
      joined by newlines gives the patterns of the first part, then those of
      the second, in order. */
  lemma {:induction false} ParseConcat(a: string, b: string)
    requires '\n' !in a
    ensures ParsePatterns(a + "\n" + b) == ParsePatterns(a) + ParsePatterns(b)
  {
    SplitAround(a, b, '\n');
    SplitNoSeparator(a, '\n');
    assert a + "\n" + b == a + ['\n'] + b;
    CleanConcat([a], Split(b, '\n'));
  }

  lemma {:induction false} CleanConcat(x: seq<string>, y: seq<string>)
    ensures CleanLines(x + y) == CleanLines(x) + CleanLines(y)
  {
    if x == [] {
      assert x + y == y;
    } else {
      CleanConcat(x[1..], y);
      CleanStep(x, y);
    }
  }

  lemma CleanStep(x: seq<string>, y: seq<string>)
    requires x != []
    ensures CleanLines(x + y) == (if Trim(x[0]) == "" then [] else [Trim(x[0])]) + CleanLines(x[1..] + y)
  {
    assert (x + y)[0] == x[0];
    assert (x + y)[1..] == x[1..] + y;
  }

  /** The default block text is the two patterns for `node_modules` and `.git`. */
  lemma DefaultBlockPatterns()
    ensures ParsePatterns(DefaultBlockText) == ["**/node_modules/**", "**/.git/**"]
  {
    var lines := ["**/node_modules/**", "**/.git/**"];
    assert Join(lines, "\n") == DefaultBlockText;
    ParseJoinedLines(lines);
  }

  /** With nothing configured every path passes the allow stage, and a path is
      processed exactly when it lies under neither `node_modules` nor `.git`. */
  lemma UnconfiguredDecision(path: string, matches: Matcher)
    ensures MatchesAllowlist(path, Unconfigured, matches)
    ensures ShouldProcessFile(path, Unconfigured, matches) <==>
              !matches("**/node_modules/**", path) && !matches("**/.git/**", path)
  {
    var block := ["**/node_modules/**", "**/.git/**"];
    DefaultBlockPatterns();
    assert MatchesBlocklist(path, Unconfigured, matches) == Some(block, path, matches);
    assert Some(block, path, matches) == (matches(block[0], path) || matches(block[1], path));
  }

  /** A setting made of white space only (blank lines included) holds no pattern. */
  lemma BlankTextParsesEmpty(text: string)
    requires forall ch :: ch in text ==> IsSpace(ch)
    ensures ParsePatterns(text) == []
  {
    SplitChars(text, '\n');
    CleanBlank(Split(text, '\n'));
  }

  /** With the allowlist on but no non-blank pattern in its text, nothing passes. */
  lemma BlankAllowlistRejectsAll(path: string, cfg: Config, matches: Matcher)
    requires cfg.enableAllowlists == Wrappers.Some(true)
    requires cfg.allowlistPatterns.Some?
    requires forall ch :: ch in cfg.allowlistPatterns.value ==> IsSpace(ch)
    ensures !ShouldProcessFile(path, cfg, matches)
  {
    BlankTextParsesEmpty(cfg.allowlistPatterns.value);
    assert cfg.allowlistPatterns.GetOr(DefaultAllowText) == cfg.allowlistPatterns.value;
    assert cfg.enableAllowlists.GetOr(false);
  }

  /** Lines made of white space only leave no pattern. */
  lemma {:induction false} CleanBlank(lines: seq<string>)
    requires forall k, ch :: 0 <= k < |lines| && ch in lines[k] ==> IsSpace(ch)
    ensures CleanLines(lines) == []
  {
    if lines != [] {
      CleanBlank(lines[1..]);
    }
  }

  /** Every character of a piece comes from the split text. */
  lemma {:induction false} SplitChars(s: string, c: char)
    ensures forall k, ch :: 0 <= k < |Split(s, c)| && ch in Split(s, c)[k] ==> ch in s
  {
    if s != [] {
      SplitChars(s[1..], c);
      var rest := Split(s[1..], c);
      var r := Split(s, c);
      forall k, ch | 0 <= k < |r| && ch in r[k] ensures ch in s {
        if s[0] == c {
          assert r[k] == if k == 0 then "" else rest[k - 1];
          assert ch in s[1..];
        } else if k == 0 {
          assert r[0] == [s[0]] + rest[0];
          if ch != s[0] { assert ch in s[1..]; }
        } else {
          assert r[k] == rest[k];
          assert ch in s[1..];
        }
      }
    }
  }

  /** The allowlist disabled, only the blocklist decides. */
  lemma AllowlistOff(path: string, cfg: Config, matches: Matcher)
    requires cfg.enableAllowlists.GetOr(false) == false
    ensures ShouldProcessFile(path, cfg, matches) == !MatchesBlocklist(path, cfg, matches)
  {
  }
}
