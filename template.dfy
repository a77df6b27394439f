/**
 * Route templates such as `/users/:id`.  `Route::match` turns a template into
 * a regular expression: `preg_quote` escapes it, every `\:name` becomes the
 * group `([a-zA-Z0-9\-\_]+)`, and the pattern is anchored at both ends
 * (`@^...$@D`).  This module models that pattern directly: a template is a
 * list of tokens, and `Match` is PCRE's greedy, backtracking search
 * restricted to this pattern language.
 */
module Template {
  import opened Base

  /** A character that may continue a parameter name once the template is quoted: `[A-Za-z0-9_]`. */
  predicate IsWordChar(c: char) {
    'a' <= c <= 'z' || 'A' <= c <= 'Z' || '0' <= c <= '9' || c == '_'
  }

  /** A character a parameter group matches, and that a parameter name may contain: `[A-Za-z0-9_-]`. */
  predicate IsCaptureChar(c: char) {
    IsWordChar(c) || c == '-'
  }

  /** The length of the longest prefix of `s` whose characters all satisfy `p`. */
  function Run(s: string, p: char -> bool): (n: nat)
    ensures n <= |s|
  {
    if s == [] || !p(s[0]) then 0 else 1 + Run(s[1..], p)
  }

  /** The run is made of characters satisfying `p`, and the character after it does not. */
  lemma {:induction false} RunStops(s: string, p: char -> bool)
    ensures forall i :: 0 <= i < Run(s, p) ==> p(s[i])
    ensures Run(s, p) < |s| ==> !p(s[Run(s, p)])
  {
    if s != [] && p(s[0]) {
      RunStops(s[1..], p);
      assert forall i :: 0 < i < |s| ==> s[i] == s[1..][i - 1];
    }
  }

  datatype Token = Lit(c: char) | Param(name: string)

  /**
   * The compiled pattern.  After `preg_quote` a `-` reads `\-`, so the
   * replacement of `\:[a-zA-Z0-9\_\-]+` stops a name at the first character
   * outside `[A-Za-z0-9_]`; a `:` not followed by such a character stays a
   * literal colon.
   */
  function Parse(url: string): seq<Token>
    decreases |url|
  {
    if url == [] then []
    else if url[0] == ':' && |url| > 1 && IsWordChar(url[1]) then
      var n := Run(url[1..], IsWordChar);
      [Param(url[1..1 + n])] + Parse(url[1 + n..])
    else [Lit(url[0])] + Parse(url[1..])
  }

  /**
   * The parameter names `Route::match` pairs with the captures:
   * `preg_match_all('/\:[a-zA-Z0-9\_\-]+/')` on the unquoted template with
   * the colon removed.  Here a name runs over `[A-Za-z0-9_-]`, hyphen
   * included, so `:user-id` yields the name `user-id` although the pattern
   * captures only what follows `:user`.
   */
  function ParamNames(url: string): seq<string>
    decreases |url|
  {
    if url == [] then []
    else if url[0] == ':' && |url| > 1 && IsCaptureChar(url[1]) then
      var n := Run(url[1..], IsCaptureChar);
      [url[1..1 + n]] + ParamNames(url[1 + n..])
    else ParamNames(url[1..])
  }

  function CountParams(ts: seq<Token>): nat {
    if ts == [] then 0 else (if ts[0].Param? then 1 else 0) + CountParams(ts[1..])
  }

  /** A string one parameter group can capture: one or more of `[A-Za-z0-9_-]`. */
  predicate ValidCapture(c: string) {
    |c| > 0 && forall i :: 0 <= i < |c| ==> IsCaptureChar(c[i])
  }

  predicate ValidCaptures(cs: seq<string>) {
    forall i :: 0 <= i < |cs| ==> ValidCapture(cs[i])
  }

  /** The path a template stands for once each parameter is replaced by its capture. */
  function Render(ts: seq<Token>, cs: seq<string>): string
    requires |cs| == CountParams(ts)
  {
    if ts == [] then []
    else match ts[0]
      case Lit(c) => [c] + Render(ts[1..], cs)
      case Param(_) => cs[0] + Render(ts[1..], cs[1..])
  }

  /**
   * The anchored match of a whole path against a compiled template: the
   * captures of the parameter groups in template order, or `None`.  A
   * parameter first takes the longest run of `[A-Za-z0-9_-]` it can and
   * gives characters back one at a time until the rest of the template
   * matches, as PCRE's backtracking does.
   */
  function Match(ts: seq<Token>, s: string): Option<seq<string>>
    decreases |ts|, 0, 0
  {
    if ts == [] then (if s == [] then Some([]) else None)
    else match ts[0]
      case Lit(c) => if s != [] && s[0] == c then Match(ts[1..], s[1..]) else None
      case Param(_) => Backtrack(ts[1..], s, Run(s, IsCaptureChar))
  }

  /** Try captures `s[..k]`, `s[..k-1]`, ..., `s[..1]` for a parameter followed by `rest`. */
  function Backtrack(rest: seq<Token>, s: string, k: nat): (r: Option<seq<string>>)
    requires k <= |s|
    ensures r.Some? ==> |r.value| > 0 && 0 < |r.value[0]| <= k && r.value[0] == s[..|r.value[0]|]
    decreases |rest|, 1, k
  {
    if k == 0 then None
    else match Match(rest, s[k..])
      case Some(cs) => Some([s[..k]] + cs)
      case None => Backtrack(rest, s, k - 1)
  }

  /** Soundness: a successful match yields one valid capture per parameter, and they rebuild the path. */
  lemma {:induction false} MatchSound(ts: seq<Token>, s: string)
    requires Match(ts, s).Some?
    ensures |Match(ts, s).value| == CountParams(ts)
    ensures ValidCaptures(Match(ts, s).value)
    ensures Render(ts, Match(ts, s).value) == s
    decreases |ts|, 0, 0
  {
    if ts != [] {
      match ts[0]
      case Lit(c) =>
        MatchSound(ts[1..], s[1..]);
      case Param(_) =>
        BacktrackSound(ts[1..], s, Run(s, IsCaptureChar));
    }
  }

  lemma {:induction false} BacktrackSound(rest: seq<Token>, s: string, k: nat)
    requires k <= Run(s, IsCaptureChar) && Backtrack(rest, s, k).Some?
    ensures var cs := Backtrack(rest, s, k).value;
      |cs| == 1 + CountParams(rest) && ValidCaptures(cs) && cs[0] + Render(rest, cs[1..]) == s
    decreases |rest|, 1, k
  {
    match Match(rest, s[k..])
    case Some(cs) =>
      MatchSound(rest, s[k..]);
      RunStops(s, IsCaptureChar);
      var all := [s[..k]] + cs;
      assert all[1..] == cs;
      assert ValidCapture(s[..k]);
      assert s[..k] + s[k..] == s;
    case None =>
      BacktrackSound(rest, s, k - 1);
  }

  /** Completeness: every path the template stands for is matched. */
  lemma {:induction false} MatchComplete(ts: seq<Token>, cs: seq<string>)
    requires |cs| == CountParams(ts) && ValidCaptures(cs)
    ensures Match(ts, Render(ts, cs)).Some?
  {
    if ts != [] {
      var s := Render(ts, cs);
      match ts[0]
      case Lit(c) =>
        MatchComplete(ts[1..], cs);
        assert s[1..] == Render(ts[1..], cs);
      case Param(_) =>
        var rest := Render(ts[1..], cs[1..]);
        assert ValidCaptures(cs[1..]);
        MatchComplete(ts[1..], cs[1..]);
        var j := |cs[0]|;
        assert s == cs[0] + rest;
        assert s[j..] == rest;
        RunCovers(s, IsCaptureChar, j);
        BacktrackFinds(ts[1..], s, Run(s, IsCaptureChar), j);
    }
  }

  /** A run covers every prefix whose characters all satisfy the predicate. */
  lemma {:induction false} RunCovers(s: string, p: char -> bool, k: nat)
    requires k <= |s| && forall i :: 0 <= i < k ==> p(s[i])
    ensures k <= Run(s, p)
  {
    if k > 0 {
      assert forall i :: 0 <= i < k - 1 ==> s[1..][i] == s[i + 1];
      RunCovers(s[1..], p, k - 1);
    }
  }

  /** A name of the pattern never reaches past the name `preg_match_all` reads at the same colon. */
  lemma {:induction false} WordRunWithinCaptureRun(s: string)
    ensures Run(s, IsWordChar) <= Run(s, IsCaptureChar)
  {
    if s != [] && IsWordChar(s[0]) {
      WordRunWithinCaptureRun(s[1..]);
    }
  }

  /** The backtracking search succeeds when some capture length it tries lets the rest match. */
  lemma {:induction false} BacktrackFinds(rest: seq<Token>, s: string, k: nat, j: nat)
    requires 1 <= j <= k <= |s| && Match(rest, s[j..]).Some?
    ensures Backtrack(rest, s, k).Some?
    decreases k
  {
    if j < k && Match(rest, s[k..]).None? {
      BacktrackFinds(rest, s, k - 1, j);
    }
  }

  /**
   * Greediness: the capture chosen for a parameter is the longest one,
   * up to `k`, that lets the rest of the template match.
   */
  lemma {:induction false} BacktrackGreedy(rest: seq<Token>, s: string, k: nat, j: nat)
    requires k <= |s| && Backtrack(rest, s, k).Some?
    requires |Backtrack(rest, s, k).value[0]| < j <= k
    ensures Match(rest, s[j..]).None?
    decreases k
  {
    if Match(rest, s[k..]).None? && j < k {
      BacktrackGreedy(rest, s, k - 1, j);
    }
  }

  predicate NoColonDash(url: string) {
    forall i :: 0 <= i < |url| - 1 && url[i] == ':' ==> url[i + 1] != '-'
  }

  /**
   * When no `:` is directly followed by `-`, the names of line 40 are as
   * many as the groups of the compiled pattern, so `array_combine` gets
   * lists of equal length.
   */
  lemma {:induction false} NamesMatchGroups(url: string)
    requires NoColonDash(url)
    ensures |ParamNames(url)| == CountParams(Parse(url))
    decreases |url|
  {
    if url == [] {
    } else if url[0] == ':' && |url| > 1 && IsWordChar(url[1]) {
      var n := Run(url[1..], IsCaptureChar);
      ParamStep(url, n);
      NoColonDashSuffix(url, 1 + n);
      NamesMatchGroups(url[1 + n..]);
    } else {
      LiteralStep(url);
      NamesMatchGroups(url[1..]);
    }
  }

  /** A parameter at the head: one name and one group, and both scans resume at the same place. */
  lemma ParamStep(url: string, n: nat)
    requires url != [] && url[0] == ':' && |url| > 1 && IsWordChar(url[1])
    requires n == Run(url[1..], IsCaptureChar)
    ensures 1 + n <= |url|
    ensures |ParamNames(url)| == 1 + |ParamNames(url[1 + n..])|
    ensures CountParams(Parse(url)) == 1 + CountParams(Parse(url[1 + n..]))
  {
    var n1 := Run(url[1..], IsWordChar);
    WordRunWithinCaptureRun(url[1..]);
    ParseParam(url, n1);
    NamesParam(url, n);
    SkipCaptureChars(url, n1, n);
  }

  lemma ParseParam(url: string, n1: nat)
    requires url != [] && url[0] == ':' && |url| > 1 && IsWordChar(url[1])
    requires n1 == Run(url[1..], IsWordChar)
    ensures 1 + n1 <= |url|
    ensures CountParams(Parse(url)) == 1 + CountParams(Parse(url[1 + n1..]))
  {
    ParseHead(url);
    CountParamsCons(Param(url[1..1 + n1]), Parse(url[1 + n1..]));
  }

  lemma ParseHead(url: string)
    requires url != [] && url[0] == ':' && |url| > 1 && IsWordChar(url[1])
    ensures var n1 := Run(url[1..], IsWordChar);
      Parse(url) == [Param(url[1..1 + n1])] + Parse(url[1 + n1..])
  {
    var n1 := Run(url[1..], IsWordChar);
    assert 1 + n1 <= |url|;
    assert url != [] && url[0] == ':' && |url| > 1 && IsWordChar(url[1]);
  }

  lemma CountParamsCons(t: Token, ts: seq<Token>)
    ensures CountParams([t] + ts) == (if t.Param? then 1 else 0) + CountParams(ts)
  {
    assert ([t] + ts)[1..] == ts;
  }

  lemma NamesParam(url: string, n: nat)
    requires url != [] && url[0] == ':' && |url| > 1 && IsCaptureChar(url[1])
    requires n == Run(url[1..], IsCaptureChar)
    ensures 1 + n <= |url|
    ensures |ParamNames(url)| == 1 + |ParamNames(url[1 + n..])|
  {
  }

  /** The hyphens and word characters that only the name scan takes in are literals of the pattern. */
  lemma SkipCaptureChars(url: string, n1: nat, n: nat)
    requires 1 <= |url| && n1 <= n == Run(url[1..], IsCaptureChar)
    ensures CountParams(Parse(url[1 + n1..])) == CountParams(Parse(url[1 + n..]))
  {
    var s := url[1 + n1..];
    RunStops(url[1..], IsCaptureChar);
    forall i | 0 <= i < n - n1
      ensures s[i] != ':'
    {
      assert s[i] == url[1..][n1 + i];
      assert IsCaptureChar(url[1..][n1 + i]);
    }
    SkipLiterals(s, n - n1);
    assert s[n - n1..] == url[1 + n..];
  }

  /** A literal character at the head: neither scan takes a name from it. */
  lemma LiteralStep(url: string)
    requires NoColonDash(url) && url != [] && !(url[0] == ':' && |url| > 1 && IsWordChar(url[1]))
    ensures |ParamNames(url)| == |ParamNames(url[1..])|
    ensures CountParams(Parse(url)) == CountParams(Parse(url[1..]))
    ensures NoColonDash(url[1..])
  {
    assert url[0] == ':' && |url| > 1 ==> !IsCaptureChar(url[1]);
    NoColonDashSuffix(url, 1);
  }

  /** A colon-free prefix contributes no parameter name. */
  lemma {:induction false} NamesSkipLits(p: string, rest: string)
    requires ':' !in p
    ensures ParamNames(p + rest) == ParamNames(rest)
    decreases |p|
  {
    if p != [] {
      assert (p + rest)[0] == p[0] && (p + rest)[1..] == p[1..] + rest;
      NamesSkipLits(p[1..], rest);
    } else {
      assert p + rest == rest;
    }
  }

  lemma NoColonDashSuffix(url: string, k: nat)
    requires NoColonDash(url) && k <= |url|
    ensures NoColonDash(url[k..])
  {
    forall i | 0 <= i < |url[k..]| - 1 && url[k..][i] == ':'
      ensures url[k..][i + 1] != '-'
    {
      assert url[k + i] == ':';
    }
  }

  /** A prefix without colons parses to literals only. */
  lemma {:induction false} SkipLiterals(s: string, k: nat)
    requires k <= |s| && forall i :: 0 <= i < k ==> s[i] != ':'
    ensures CountParams(Parse(s)) == CountParams(Parse(s[k..]))
  {
    if k > 0 {
      SkipLiterals(s[1..], k - 1);
      assert s[1..][k - 1..] == s[k..];
    }
  }

  /** The tokens of a template made of literal characters only. */
  function Lits(p: string): (r: seq<Token>)
    ensures |r| == |p| && forall i :: 0 <= i < |p| ==> r[i] == Lit(p[i])
  {
    if p == [] then [] else [Lit(p[0])] + Lits(p[1..])
  }

  lemma {:induction false} LitsAppend(p: string, q: string)
    ensures Lits(p + q) == Lits(p) + Lits(q)
  {
    if p != [] {
      assert (p + q)[1..] == p[1..] + q;
      LitsAppend(p[1..], q);
    } else {
      assert p + q == q;
    }
  }

  /** A prefix without colons compiles to its characters, taken literally. */
  lemma {:induction false} ParseLits(s: string, k: nat)
    requires k <= |s| && forall i :: 0 <= i < k ==> s[i] != ':'
    ensures Parse(s) == Lits(s[..k]) + Parse(s[k..])
  {
    if k > 0 {
      ParseLits(s[1..], k - 1);
      assert s[1..][k - 1..] == s[k..];
      assert s[..k][1..] == s[1..][..k - 1];
    }
  }

  /** Literals match verbatim: a literal prefix consumes exactly itself. */
  lemma {:induction false} MatchLits(p: string, ts: seq<Token>, s: string)
    ensures Match(Lits(p) + ts, p + s) == Match(ts, s)
  {
    if p != [] {
      MatchLits(p[1..], ts, s);
      assert (Lits(p) + ts)[0] == Lit(p[0]);
      assert (p + s)[0] == p[0];
      assert (Lits(p) + ts)[1..] == Lits(p[1..]) + ts;
      assert (p + s)[1..] == p[1..] + s;
    } else {
      assert Lits(p) + ts == ts;
      assert p + s == s;
    }
  }

  /** A template ending in one parameter matches what is left exactly when that is a valid capture. */
  lemma LastParam(name: string, s: string)
    ensures Match([Param(name)], s).Some? <==> ValidCapture(s)
    ensures ValidCapture(s) ==> Match([Param(name)], s) == Some([s])
  {
    if ValidCapture(s) {
      RunCovers(s, IsCaptureChar, |s|);
      assert Run(s, IsCaptureChar) == |s|;
      assert [Param(name)][1..] == [];
      assert s[|s|..] == [];
      assert Match([], s[|s|..]) == Some([]);
      assert s[..|s|] == s;
      assert [s[..|s|]] + [] == [s];
      assert Backtrack([], s, |s|) == Some([s]);
    } else if Match([Param(name)], s).Some? {
      MatchSound([Param(name)], s);
    }
  }
}
