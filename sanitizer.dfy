/**
 * `Lab::Vm#filter_input`: the allow-list check every sanitized configuration
 * field goes through. The pattern is one character class, repeated, between
 * Ruby's `^` and `$`, which are line anchors: the test passes as soon as one
 * line of the input consists of allowed characters only.
 */
module Sanitizer {
  import opened Wrappers
  import opened RubyValues

  // The character class of the pattern, with ASCII meanings for \w, \d and \s.

  predicate IsWordChar(c: char) {
    'a' <= c <= 'z' || 'A' <= c <= 'Z' || '0' <= c <= '9' || c == '_'
  }

  predicate IsDigit(c: char) {
    '0' <= c <= '9'
  }

  /** `\s`: space, tab, line feed, vertical tab, form feed, carriage return. */
  predicate IsSpace(c: char) {
    c == ' ' || '\t' <= c <= '\r'
  }

  /** The literal characters of the class: ( ! ) * [ ] { } / \ . - " */
  predicate IsListedPunctuation(c: char) {
    || c == '(' || c == '!' || c == ')' || c == '*' || c == '[' || c == ']' || c == '{'
    || c == '}' || c == '/' || c == '\\' || c == '.' || c == '-' || c == '"'
  }

  predicate IsAllowed(c: char) {
    IsWordChar(c) || IsDigit(c) || IsSpace(c) || IsListedPunctuation(c)
  }

  // Ruby's line anchors.

  /** `^` holds at `p`: the start of the string, or just after a newline that is not the last character. */
  predicate LineStart(s: string, p: int)
    requires 0 <= p <= |s|
  {
    p == 0 || (s[p - 1] == '\n' && p < |s|)
  }

  /** `$` holds at `q`: the end of the string, or just before a newline. */
  predicate LineEnd(s: string, q: int)
    requires 0 <= q <= |s|
  {
    q == |s| || s[q] == '\n'
  }

  predicate AllAllowed(s: string, p: int, q: int)
    requires 0 <= p <= q <= |s|
  {
    forall k :: p <= k < q ==> IsAllowed(s[k])
  }

  /** The pattern matches `s[p..q]`. */
  predicate MatchesSpan(s: string, p: int, q: int) {
    0 <= p <= q <= |s| && LineStart(s, p) && LineEnd(s, q) && AllAllowed(s, p, q)
  }

  /** What Ruby's `=~` reports: some span between a `^` and a `$` holds allowed characters only. */
  ghost predicate PatternMatches(s: string) {
    exists p, q :: MatchesSpan(s, p, q)
  }

  /** The first line end at or after `p`. */
  function LineEndFrom(s: string, p: nat): (q: nat)
    requires p <= |s|
    ensures p <= q <= |s| && LineEnd(s, q)
    ensures forall k :: p <= k < q ==> s[k] != '\n'
    decreases |s| - p
  {
    if p == |s| || s[p] == '\n' then p else LineEndFrom(s, p + 1)
  }

  /** Line by line from the line that starts at `p`: is some line made of allowed characters only? */
  function MatchFrom(s: string, p: nat): bool
    requires p <= |s|
    decreases |s| - p
  {
    var q := LineEndFrom(s, p);
    AllAllowed(s, p, q) || (q + 1 < |s| && MatchFrom(s, q + 1))
  }

  /** The executable form of the match. */
  function MatchesPattern(s: string): bool {
    MatchFrom(s, 0)
  }

  lemma {:induction false} MatchFromSound(s: string, p: nat)
    requires p <= |s| && LineStart(s, p)
    ensures MatchFrom(s, p) <==> exists p', q :: p <= p' && MatchesSpan(s, p', q)
    decreases |s| - p
  {
    var q0 := LineEndFrom(s, p);
    if q0 + 1 < |s| {
      assert s[q0] == '\n';
      MatchFromSound(s, q0 + 1);
    }
    if AllAllowed(s, p, q0) {
      assert MatchesSpan(s, p, q0);
    }
    if exists p', q :: p <= p' && MatchesSpan(s, p', q) {
      var p', q :| p <= p' && MatchesSpan(s, p', q);
      SpanLocated(s, p, p', q);
      if p' != p {
        assert MatchesSpan(s, p', q) && q0 + 1 <= p';
      }
    }
  }

  /** A matching span from `p` on is either the first line, wholly allowed, or lies past its end. */
  lemma SpanLocated(s: string, p: nat, p': int, q: int)
    requires p <= |s| && p <= p' && MatchesSpan(s, p', q)
    ensures p' == p ==> AllAllowed(s, p, LineEndFrom(s, p))
    ensures p' != p ==> LineEndFrom(s, p) + 1 < |s| && LineEndFrom(s, p) + 1 <= p'
  {
    var q0 := LineEndFrom(s, p);
    if p' == p {
      assert q0 <= q;
    } else {
      assert s[p' - 1] == '\n';
    }
  }

  /** The line-by-line check decides exactly Ruby's match. */
  lemma MatchesPatternCorrect(s: string)
    ensures MatchesPattern(s) <==> PatternMatches(s)
  {
    MatchFromSound(s, 0);
  }

  /**
   * `filter_input(value)`: nil and false give "", any other non-String gives
   * nil, a String is returned unchanged when the pattern matches it and
   * raises otherwise. Whatever string it returns satisfies the pattern.
   */
  function FilterInput(v: Value): (r: Result<Option<string>, Error>)
    ensures !Truthy(v) ==> r == Ok(Some(""))
    ensures Truthy(v) && !v.Str? ==> r == Ok(None)
    ensures v.Str? && PatternMatches(v.s) ==> r == Ok(Some(v.s))
    ensures v.Str? && !PatternMatches(v.s) ==> r == Err(InvalidCharacter(v.s))
    ensures r.Ok? && r.value.Some? ==> PatternMatches(r.value.value)
  {
    if !Truthy(v) then
      assert MatchesSpan("", 0, 0);
      Ok(Some(""))
    else if !v.Str? then
      Ok(None)
    else
      MatchesPatternCorrect(v.s);
      if MatchesPattern(v.s) then Ok(Some(v.s)) else Err(InvalidCharacter(v.s))
  }

  /** Every character is one the bracket expression allows. */
  predicate AllowListed(s: string) {
    forall i :: 0 <= i < |s| ==> IsAllowed(s[i])
  }

  /** A String whose every character is allowed passes unchanged, newlines or not. */
  lemma AllowListedAccepted(s: string)
    requires AllowListed(s)
    ensures FilterInput(Str(s)) == Ok(Some(s))
  {
    assert MatchesSpan(s, 0, |s|);
  }

  /** Without a newline the test is a plain character allow-list, in both directions. */
  lemma NewlineFreeAllowList(s: string)
    requires '\n' !in s
    ensures FilterInput(Str(s)) == Ok(Some(s)) <==> AllowListed(s)
    ensures FilterInput(Str(s)) != Ok(Some(s)) ==> FilterInput(Str(s)) == Err(InvalidCharacter(s))
  {
    if AllowListed(s) {
      AllowListedAccepted(s);
    }
    if PatternMatches(s) {
      var p, q :| MatchesSpan(s, p, q);
      assert p == 0;
      assert q == |s|;
    }
  }

  /** Shell metacharacters in a single-line String make the filter raise. */
  lemma RejectsShellMetacharacters(s: string, i: nat)
    requires '\n' !in s && i < |s| && s[i] in ";|&$`'"
    ensures FilterInput(Str(s)) == Err(InvalidCharacter(s))
  {
    NewlineFreeAllowList(s);
    MetacharacterRejected(s[i]);
  }

  lemma MetacharacterRejected(c: char)
    requires c in ";|&$`'"
    ensures !IsAllowed(c)
  {
  }

  /**
   * The line anchors let anything through before a newline that is followed
   * by an allowed, non-empty last part.
   */
  lemma LineAnchorBypass(before: string, after: string)
    requires after != [] && AllowListed(after)
    ensures FilterInput(Str(before + "\n" + after)) == Ok(Some(before + "\n" + after))
  {
    var s := before + "\n" + after;
    var p := |before| + 1;
    assert s[p - 1] == '\n';
    forall k | p <= k < |s| ensures IsAllowed(s[k]) {
      assert s[k] == after[k - p];
    }
    assert MatchesSpan(s, p, |s|);
  }

  /** An empty line in the middle passes the filter, whatever surrounds it. */
  lemma EmptyLineBypass(before: string, after: string)
    ensures FilterInput(Str(before + "\n\n" + after)) == Ok(Some(before + "\n\n" + after))
  {
    var s := before + "\n\n" + after;
    var p := |before| + 1;
    assert s[p - 1] == '\n' && s[p] == '\n';
    assert MatchesSpan(s, p, p);
  }

  /** A command-injection string that `filter_input` rejects on its own gets through once a harmless line follows it. */
  lemma InjectionExample()
    ensures FilterInput(Str("x;rm -rf /\nok")) == Ok(Some("x;rm -rf /\nok"))
    ensures FilterInput(Str("x;rm -rf /")) == Err(InvalidCharacter("x;rm -rf /"))
  {
    LineAnchorBypass("x;rm -rf /", "ok");
    assert "x;rm -rf /" + "\n" + "ok" == "x;rm -rf /\nok";
    RejectsShellMetacharacters("x;rm -rf /", 1);
  }

  /** Lower-casing a String does not change the sanitizer's verdict on it. */
  lemma DowncaseKeepsVerdict(s: string)
    ensures PatternMatches(Downcase(s)) <==> PatternMatches(s)
  {
    var d := Downcase(s);
    forall k | 0 <= k < |s| ensures (d[k] == '\n' <==> s[k] == '\n') && (IsAllowed(d[k]) <==> IsAllowed(s[k])) {
      assert d[k] == Lower(s[k]);
    }
    if PatternMatches(s) {
      var p, q :| MatchesSpan(s, p, q);
      assert MatchesSpan(d, p, q);
    }
    if PatternMatches(d) {
      var p, q :| MatchesSpan(d, p, q);
      assert MatchesSpan(s, p, q);
    }
  }
}
