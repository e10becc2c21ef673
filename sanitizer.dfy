/**
 * Prompt-injection sanitiser (src/kyf/utils/sanitizer.py).
 *
 * `sanitize` truncates, normalises (NFKC), replaces every match of each
 * injection pattern in list order by "[FILTERED]", then strips whitespace;
 * `is_suspicious` normalises and asks whether any pattern matches.
 *
 * Unicode normalisation and the regular-expression engine are not modelled:
 * they are supplied as a TextEngine of functions. The one pattern
 * `eval\s*\(` is modelled concretely (case-insensitive, with Python's `\s`).
 */
module Sanitizer {

  const MaxContentLength: nat := 10000
  const Filtered: string := "[FILTERED]"

  /** Python's `str.isspace`, the class used by both `\s` and `str.strip()`. */
  predicate IsSpace(c: char) {
    var n := c as int;
    || (0x09 <= n <= 0x0D) || (0x1C <= n <= 0x20) || n == 0x85 || n == 0xA0 || n == 0x1680
    || (0x2000 <= n <= 0x200A) || n == 0x2028 || n == 0x2029 || n == 0x202F || n == 0x205F || n == 0x3000
  }

  // ---- Patterns and the engine that runs the opaque ones ----

  /** A compiled pattern; every pattern is case-insensitive, `dotAll` adds re.DOTALL. */
  datatype Regex = Regex(source: string, dotAll: bool)

  datatype Pattern = EvalCall | Compiled(re: Regex)

  /**
   * NFKC normalisation, `pattern.search(text) is not None`, and
   * `pattern.sub("[FILTERED]", text)` for a text the pattern matches.
   */
  datatype TextEngine = TextEngine(
    nfkc: string -> string,
    search: (Regex, string) -> bool,
    replaceAll: (Regex, string) -> string)

  /** The number of entries of `_INJECTION_PATTERNS`. */
  const PatternCount: nat := 23

  /** Entry `i` of `_INJECTION_PATTERNS`; every entry is case-insensitive, and entry 17 also lets `.` match newlines. */
  function PatternAt(i: nat): Pattern
    requires i < PatternCount
  {
    match i
    // instruction overrides
    case 0 => Compiled(Regex("ignore\\s+(all\\s+)?previous\\s+instructions", false))
    case 1 => Compiled(Regex("disregard\\s+(all\\s+)?(prior|previous|above)", false))
    case 2 => Compiled(Regex("forget\\s+(all\\s+)?(previous|prior|above|your)\\s+\\w+", false))
    case 3 => Compiled(Regex("override\\s+(your\\s+)?(system|instructions|rules)", false))
    case 4 => Compiled(Regex("do\\s+not\\s+follow\\s+(your|the)\\s+(previous|original)", false))
    // role manipulation
    case 5 => Compiled(Regex("you\\s+are\\s+now\\s+a", false))
    case 6 => Compiled(Regex("pretend\\s+(you\\s+are|to\\s+be)", false))
    case 7 => Compiled(Regex("act\\s+as\\s+(if\\s+you\\s+are|a|an)", false))
    case 8 => Compiled(Regex("switch\\s+to\\s+\\w+\\s+mode", false))
    case 9 => Compiled(Regex("enter\\s+(developer|debug|admin|god)\\s+mode", false))
    // prompt extraction
    case 10 => Compiled(Regex("reveal\\s+your\\s+(system\\s+)?prompt", false))
    case 11 => Compiled(Regex("(show|print|output|repeat)\\s+(your\\s+)?(system\\s+)?(prompt|instructions)", false))
    case 12 => Compiled(Regex("what\\s+(are|is)\\s+your\\s+(system\\s+)?(prompt|instructions)", false))
    // structural role markers
    case 13 => Compiled(Regex("system\\s*:", false))
    case 14 => Compiled(Regex("<\\s*/?\\s*system\\s*>", false))
    case 15 => Compiled(Regex("\\[/?INST\\]", false))
    case 16 => Compiled(Regex("<<\\s*/?SYS\\s*>>", false))
    case 17 => Compiled(Regex("<\\s*\\|im_start\\|.*?\\|im_end\\|?\\s*>", true))
    case 18 => Compiled(Regex("###\\s*(System|Human|Assistant)\\s*:", false))
    // encoded or obfuscated payloads
    case 19 => Compiled(Regex("base64\\s*[:\\-]\\s*[A-Za-z0-9+/=]{20,}", false))
    case 20 => EvalCall
    // output manipulation
    case 21 => Compiled(Regex("respond\\s+with\\s+(only|exactly|just)", false))
    case _ => Compiled(Regex("your\\s+(response|output|reply)\\s+must\\s+(be|start|begin|contain)", false))
  }

  /** `_INJECTION_PATTERNS`, in order. */
  const InjectionPatterns: seq<Pattern> := seq(PatternCount, i requires 0 <= i < PatternCount => PatternAt(i))

  // ---- The concrete pattern `eval\s*\(` ----

  predicate IsEvalWord(w: string)
    requires |w| == 4
  {
    (w[0] == 'e' || w[0] == 'E') && (w[1] == 'v' || w[1] == 'V')
    && (w[2] == 'a' || w[2] == 'A') && (w[3] == 'l' || w[3] == 'L')
  }

  /** Length of the run of whitespace that starts `t` (what a greedy `\s*` consumes). */
  function SpaceRun(t: string): (n: nat)
    ensures n <= |t|
    ensures forall k :: 0 <= k < n ==> IsSpace(t[k])
    ensures n == |t| || !IsSpace(t[n])
  {
    if t != [] && IsSpace(t[0]) then 1 + SpaceRun(t[1..]) else 0
  }

  /** The length of the match of `eval\s*\(` at the very start of `t`, or 0 when there is none. */
  function EvalMatchLen(t: string): (n: nat)
    ensures n == 0 || 5 <= n <= |t|
  {
    if |t| >= 4 && IsEvalWord(t[..4]) then
      var k := SpaceRun(t[4..]);
      if 4 + k < |t| && t[4 + k] == '(' then 5 + k else 0
    else 0
  }

  /** `re.search(r"eval\s*\(", t, re.IGNORECASE)` finds a match. */
  predicate HasEvalCall(t: string) {
    exists i :: 0 <= i < |t| && EvalMatchLen(t[i..]) > 0
  }

  /** `re.sub(r"eval\s*\(", "[FILTERED]", t, flags=re.IGNORECASE)`: leftmost, non-overlapping. */
  function SubEval(t: string): string
    decreases |t|
  {
    if t == [] then []
    else
      var n := EvalMatchLen(t);
      if n > 0 then Filtered + SubEval(t[n..]) else [t[0]] + SubEval(t[1..])
  }

  /** The first position where `eval\s*\(` matches, or |t| when it matches nowhere. */
  function FirstEvalMatch(t: string): (k: nat)
    ensures k <= |t|
    ensures forall j :: 0 <= j < k ==> EvalMatchLen(t[j..]) == 0
    ensures k < |t| ==> EvalMatchLen(t[k..]) > 0
    decreases |t|
  {
    if t == [] then 0
    else if EvalMatchLen(t) > 0 then 0
    else
      var k := 1 + FirstEvalMatch(t[1..]);
      assert forall j :: 1 <= j < k ==> t[j..] == t[1..][j - 1..];
      k
  }

  /** What a match is made of: the four letters, whitespace, and the parenthesis. */
  lemma EvalMatchShape(t: string)
    requires EvalMatchLen(t) > 0
    ensures var n := EvalMatchLen(t);
            && (t[0] == 'e' || t[0] == 'E') && (t[1] == 'v' || t[1] == 'V')
            && (t[2] == 'a' || t[2] == 'A') && (t[3] == 'l' || t[3] == 'L')
            && (forall k :: 4 <= k < n - 1 ==> IsSpace(t[k]))
            && t[n - 1] == '('
  {
    var k := SpaceRun(t[4..]);
    assert forall j :: 4 <= j < 4 + k ==> t[j] == t[4..][j - 4];
  }

  /** A match depends only on the characters it spans. */
  lemma EvalMatchIsLocal(s: string, t: string)
    requires EvalMatchLen(s) > 0
    requires EvalMatchLen(s) <= |t| && t[..EvalMatchLen(s)] == s[..EvalMatchLen(s)]
    ensures EvalMatchLen(t) == EvalMatchLen(s)
  {
    var n := EvalMatchLen(s);
    EvalMatchShape(s);
    assert t[..4] == s[..4];
    var ks, kt := SpaceRun(s[4..]), SpaceRun(t[4..]);
    assert ks == n - 5;
    forall j | 0 <= j < ks ensures IsSpace(t[4..][j]) {
      assert t[4..][j] == t[4 + j] == s[4 + j] == s[4..][j];
    }
    assert t[4..][ks] == t[4 + ks] == '(';
    assert !IsSpace(t[4..][ks]);
  }

  /** No match of `eval\s*\(` starts at position j of `t`. */
  predicate MatchFreeAt(t: string, j: nat)
    requires j <= |t|
  {
    EvalMatchLen(t[j..]) == 0
  }

  /** Copying a stretch with no match: the substitution is that stretch followed by the rest's. */
  lemma {:induction false} SubEvalCopies(t: string, k: nat)
    requires k <= |t|
    requires forall j :: 0 <= j < k ==> MatchFreeAt(t, j)
    ensures SubEval(t) == t[..k] + SubEval(t[k..])
    decreases k
  {
    if k > 0 {
      SubEvalCopiesHead(t);
      NoEvalMatchInTail(t, k);
      SubEvalCopies(t[1..], k - 1);
      CopiedPrefix(t, k);
      Regroup(SubEval(t), SubEval(t[1..]), t[0], t[1..][..k - 1], SubEval(t[k..]));
    }
  }

  /** A sequence that is `h` followed by `a + b` is `[h] + a` followed by `b`. */
  lemma Regroup<T>(x: seq<T>, y: seq<T>, h: T, a: seq<T>, b: seq<T>)
    requires x == [h] + y && y == a + b
    ensures x == ([h] + a) + b
  {
  }

  /** Cutting off the first character shifts the match-free positions by one. */
  lemma NoEvalMatchInTail(t: string, k: nat)
    requires 0 < k <= |t|
    requires forall j :: 0 <= j < k ==> MatchFreeAt(t, j)
    ensures forall j :: 0 <= j < k - 1 ==> MatchFreeAt(t[1..], j)
  {
    forall j | 0 <= j < k - 1 ensures MatchFreeAt(t[1..], j) {
      assert MatchFreeAt(t, j + 1);
      assert t[1..][j..] == t[j + 1..];
    }
  }

  /** Where no match starts, the first character is copied. */
  lemma SubEvalCopiesHead(t: string)
    requires t != [] && MatchFreeAt(t, 0)
    ensures SubEval(t) == [t[0]] + SubEval(t[1..])
  {
    assert t[0..] == t;
  }

  /** The first k characters are the first one followed by k - 1 of the tail. */
  lemma CopiedPrefix(t: string, k: nat)
    requires 0 < k <= |t|
    ensures t[..k] == [t[0]] + t[1..][..k - 1]
    ensures t[1..][k - 1..] == t[k..]
  {
  }

  /** No match of `eval\s*\(` starts inside the marker "[FILTERED]". */
  lemma NoEvalMatchInMarker(rest: string, i: nat)
    requires i < |Filtered|
    ensures EvalMatchLen((Filtered + rest)[i..]) == 0
  {
    var s := (Filtered + rest)[i..];
    if EvalMatchLen(s) > 0 {
      EvalMatchShape(s);
      assert false;
    }
  }

  /** No match starts in `x` past position |p| of `p + x`, unless one starts in `x`. */
  lemma NoEvalMatchAfter(p: string, x: string, i: nat)
    requires |p| <= i < |p + x|
    requires !HasEvalCall(x)
    ensures EvalMatchLen((p + x)[i..]) == 0
  {
    assert (p + x)[i..] == x[i - |p|..];
  }

  /** Every match is replaced: the substituted text has no match of `eval\s*\(` left. */
  lemma {:induction false} SubEvalRemovesAll(t: string)
    ensures !HasEvalCall(SubEval(t))
    decreases |t|
  {
    if t == [] {
      return;
    }
    var out := SubEval(t);
    var n := EvalMatchLen(t);
    if n > 0 {
      var rest := SubEval(t[n..]);
      SubEvalRemovesAll(t[n..]);
      assert out == Filtered + rest;
      forall i | 0 <= i < |out| ensures EvalMatchLen(out[i..]) == 0 {
        if i < |Filtered| {
          NoEvalMatchInMarker(rest, i);
        } else {
          NoEvalMatchAfter(Filtered, rest, i);
        }
      }
    } else {
      var s := t[1..];
      var rest := SubEval(s);
      SubEvalRemovesAll(s);
      assert out == [t[0]] + rest;
      forall i | 0 <= i < |out| ensures EvalMatchLen(out[i..]) == 0 {
        if i > 0 {
          NoEvalMatchAfter([t[0]], rest, i);
        } else {
          assert out[0..] == out;
          HeadIsNoEvalMatch(t, out);
        }
      }
    }
  }

  /**
   * The substitution agrees with its input up to the first '[' it writes:
   * a prefix of the output without '[' was copied unchanged.
   */
  lemma SubEvalPrefixWithoutMarker(s: string, p: nat)
    requires p <= |SubEval(s)|
    requires forall j :: 0 <= j < p ==> SubEval(s)[j] != '['
    ensures p <= |s| && SubEval(s)[..p] == s[..p]
  {
    var k := FirstEvalMatch(s);
    SubEvalCopies(s, k);
    if k < |s| {
      var tail := s[k..];
      assert tail != [] && EvalMatchLen(tail) > 0;
      assert SubEval(tail) == Filtered + SubEval(tail[EvalMatchLen(tail)..]);
      assert SubEval(s)[k] == '[';
      assert p <= k;
    } else {
      assert s[k..] == [];
    }
  }

  /** The step of SubEvalRemovesAll where the first character was copied. */
  lemma HeadIsNoEvalMatch(t: string, out: string)
    requires t != [] && EvalMatchLen(t) == 0
    requires out == [t[0]] + SubEval(t[1..])
    ensures EvalMatchLen(out) == 0
  {
    var m := EvalMatchLen(out);
    if m > 0 {
      var s := t[1..];
      var rest := SubEval(s);
      HeadMatchCopied(t[0], s, rest, out, m);
      EvalMatchIsLocal(out, t);
      assert false;
    }
  }

  /** A match at the head of the output spans only copied characters. */
  lemma HeadMatchCopied(c: char, s: string, rest: string, out: string, m: nat)
    requires rest == SubEval(s) && out == [c] + rest
    requires m == EvalMatchLen(out) > 0
    ensures m <= |[c] + s| && out[..m] == ([c] + s)[..m]
  {
    EvalMatchShape(out);
    forall j | 0 <= j < m - 1 ensures rest[j] != '[' {
      assert rest[j] == out[j + 1];
    }
    SubEvalPrefixWithoutMarker(s, m - 1);
    assert out[..m] == [c] + rest[..m - 1];
    assert ([c] + s)[..m] == [c] + s[..m - 1];
  }

  /** A text without a match is left unchanged. */
  lemma {:induction false} SubEvalIdentity(t: string)
    requires !HasEvalCall(t)
    ensures SubEval(t) == t
    decreases |t|
  {
    if t != [] {
      assert t[0..] == t;
      assert EvalMatchLen(t) == 0;
      forall i | 0 <= i < |t[1..]| ensures EvalMatchLen(t[1..][i..]) == 0 {
        assert t[1..][i..] == t[i + 1..];
      }
      SubEvalIdentity(t[1..]);
    }
  }

  // ---- Matching and substitution through the engine ----

  /** `pattern.search(text)` finds a match. */
  predicate Search(e: TextEngine, p: Pattern, t: string) {
    match p
    case EvalCall => HasEvalCall(t)
    case Compiled(r) => e.search(r, t)
  }

  /** `pattern.sub("[FILTERED]", text)`; a pattern that does not match leaves the text as it is. */
  function Substitute(e: TextEngine, p: Pattern, t: string): string {
    match p
    case EvalCall => SubEval(t)
    case Compiled(r) => if e.search(r, t) then e.replaceAll(r, t) else t
  }

  /** The `for pattern in ...: text = pattern.sub(...)` loop, a left fold over the patterns. */
  function ApplyPatterns(e: TextEngine, ps: seq<Pattern>, t: string): string
    decreases |ps|
  {
    if ps == [] then t else ApplyPatterns(e, ps[1..], Substitute(e, ps[0], t))
  }

  /** `any(pattern.search(t) for pattern in ps)`. */
  predicate AnyMatch(e: TextEngine, ps: seq<Pattern>, t: string)
    decreases |ps|
  {
    ps != [] && (Search(e, ps[0], t) || AnyMatch(e, ps[1..], t))
  }

  /** The patterns are applied in list order: a split list is two folds in a row. */
  lemma {:induction false} ApplyPatternsInOrder(e: TextEngine, ps: seq<Pattern>, qs: seq<Pattern>, t: string)
    ensures ApplyPatterns(e, ps + qs, t) == ApplyPatterns(e, qs, ApplyPatterns(e, ps, t))
    decreases |ps|
  {
    if ps != [] {
      assert (ps + qs)[0] == ps[0];
      assert (ps + qs)[1..] == ps[1..] + qs;
      ApplyPatternsInOrder(e, ps[1..], qs, Substitute(e, ps[0], t));
    } else {
      assert ps + qs == qs;
    }
  }

  /** When no pattern matches, every substitution is the identity. */
  lemma {:induction false} ApplyPatternsNoMatch(e: TextEngine, ps: seq<Pattern>, t: string)
    requires !AnyMatch(e, ps, t)
    ensures ApplyPatterns(e, ps, t) == t
    decreases |ps|
  {
    if ps != [] {
      if ps[0].EvalCall? {
        SubEvalIdentity(t);
      }
      ApplyPatternsNoMatch(e, ps[1..], t);
    }
  }

  /** `any(...)` holds exactly when some pattern of the list matches. */
  lemma {:induction false} AnyMatchIffSome(e: TextEngine, ps: seq<Pattern>, t: string)
    ensures AnyMatch(e, ps, t) <==> exists i :: 0 <= i < |ps| && Search(e, ps[i], t)
    decreases |ps|
  {
    if ps != [] {
      AnyMatchIffSome(e, ps[1..], t);
      if AnyMatch(e, ps[1..], t) {
        var i :| 0 <= i < |ps[1..]| && Search(e, ps[1..][i], t);
        assert ps[i + 1] == ps[1..][i];
      }
      if exists i :: 0 <= i < |ps| && Search(e, ps[i], t) {
        var i :| 0 <= i < |ps| && Search(e, ps[i], t);
        if i > 0 {
          assert ps[1..][i - 1] == ps[i];
        }
      }
    }
  }

  // ---- Truncation and stripping ----

  /** `text[:_MAX_CONTENT_LENGTH]`. */
  function Truncate(t: string): (r: string)
    ensures |r| <= MaxContentLength
    ensures |r| == if |t| <= MaxContentLength then |t| else MaxContentLength
    ensures r == t[..|r|]
  {
    if |t| <= MaxContentLength then t else t[..MaxContentLength]
  }

  predicate NoEdgeSpace(s: string) {
    s == [] || (!IsSpace(s[0]) && !IsSpace(s[|s| - 1]))
  }

  function StripLeft(t: string): (r: string)
    ensures |r| <= |t| && r == t[|t| - |r|..]
    ensures forall k :: 0 <= k < |t| - |r| ==> IsSpace(t[k])
    ensures r == [] || !IsSpace(r[0])
  {
    if t != [] && IsSpace(t[0]) then StripLeft(t[1..]) else t
  }

  function StripRight(t: string): (r: string)
    ensures |r| <= |t| && r == t[..|r|]
    ensures forall k :: |r| <= k < |t| ==> IsSpace(t[k])
    ensures r == [] || !IsSpace(r[|r| - 1])
  {
    if t != [] && IsSpace(t[|t| - 1]) then StripRight(t[..|t| - 1]) else t
  }

  /** `str.strip()`: the text between the leading and the trailing whitespace. */
  function Strip(t: string): (r: string)
    ensures NoEdgeSpace(r)
    ensures |r| <= |StripLeft(t)| && r == t[|t| - |StripLeft(t)|..][..|r|]
  {
    var l := StripLeft(t);
    var r := StripRight(l);
    assert r != [] ==> r[0] == l[0];
    r
  }

  /** Stripping an already stripped text changes nothing. */
  lemma StripFixesStripped(s: string)
    requires NoEdgeSpace(s)
    ensures Strip(s) == s
  {
    assert StripLeft(s) == s;
    assert StripRight(s) == s;
  }

  // ---- The two public operations ----

  /** `InputSanitizer.sanitize`. */
  function Sanitize(e: TextEngine, text: string): (r: string)
    ensures text == "" ==> r == ""
    ensures NoEdgeSpace(r)
  {
    if text == "" then text
    else Strip(ApplyPatterns(e, InjectionPatterns, e.nfkc(Truncate(text))))
  }

  /**
   * `InputSanitizer.sanitize` as the source runs it: truncate, normalise,
   * then replace each pattern's matches in list order, then strip.
   */
  method SanitizeText(e: TextEngine, text: string) returns (r: string)
    ensures r == Sanitize(e, text)
  {
    if text == "" {
      return text;
    }
    var t := e.nfkc(Truncate(text));
    ghost var normalised := t;
    var i := 0;
    while i < |InjectionPatterns|
      invariant 0 <= i <= |InjectionPatterns|
      invariant ApplyPatterns(e, InjectionPatterns[i..], t) == ApplyPatterns(e, InjectionPatterns, normalised)
    {
      assert InjectionPatterns[i..][1..] == InjectionPatterns[i + 1..];
      t := Substitute(e, InjectionPatterns[i], t);
      i := i + 1;
    }
    assert InjectionPatterns[i..] == [];
    r := Strip(t);
  }

  /** `InputSanitizer.is_suspicious`: no truncation before matching. */
  predicate IsSuspicious(e: TextEngine, text: string)
    ensures text == "" ==> !IsSuspicious(e, text)
  {
    text != "" && AnyMatch(e, InjectionPatterns, e.nfkc(text))
  }

  /** Suspicious exactly when some pattern matches the normalised, untruncated text. */
  lemma SuspiciousIffSomePatternMatches(e: TextEngine, text: string)
    ensures IsSuspicious(e, text) <==>
            text != "" && exists i :: 0 <= i < |InjectionPatterns| && Search(e, InjectionPatterns[i], e.nfkc(text))
  {
    AnyMatchIffSome(e, InjectionPatterns, e.nfkc(text));
  }

  /**
   * Normalisation comes first: a text whose normal form contains `eval(`
   * (in any case and with any whitespace before the parenthesis) is suspicious,
   * whatever lookalike characters it was written in.
   */
  lemma EvalCallAfterNormalisingIsSuspicious(e: TextEngine, text: string)
    requires text != "" && HasEvalCall(e.nfkc(text))
    ensures IsSuspicious(e, text)
  {
    assert InjectionPatterns[20] == EvalCall;
    AnyMatchIffSome(e, InjectionPatterns, e.nfkc(text));
  }

  /** Texts with the same normal form (after truncation) are sanitised and classified alike. */
  lemma LookalikesTreatedAlike(e: TextEngine, a: string, b: string)
    requires a != "" && b != ""
    ensures e.nfkc(Truncate(a)) == e.nfkc(Truncate(b)) ==> Sanitize(e, a) == Sanitize(e, b)
    ensures e.nfkc(a) == e.nfkc(b) ==> IsSuspicious(e, a) == IsSuspicious(e, b)
  {
  }

  /** Without any match in the normalised, truncated text, sanitising only truncates, normalises and strips. */
  lemma SanitizeWithoutMatch(e: TextEngine, text: string)
    requires text != ""
    requires !AnyMatch(e, InjectionPatterns, e.nfkc(Truncate(text)))
    ensures Sanitize(e, text) == Strip(e.nfkc(Truncate(text)))
  {
    ApplyPatternsNoMatch(e, InjectionPatterns, e.nfkc(Truncate(text)));
  }

  /** Only the first 10,000 characters of the raw text can influence the result. */
  lemma SanitizeReadsOnlyTheCap(e: TextEngine, a: string, b: string)
    requires |a| >= MaxContentLength && |b| >= MaxContentLength
    requires a[..MaxContentLength] == b[..MaxContentLength]
    ensures Sanitize(e, a) == Sanitize(e, b)
  {
  }
}
