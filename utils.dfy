/**
 * src/lib/utils.ts: the string helpers (initials, username normalisation,
 * the email pattern, the file-extension expression, truncation) and the
 * affiliate-code generator. Case mapping is ASCII; `Math.random` is a
 * sequence of draws from [0, 1).
 */
module Utils {
  import opened Wrappers
  import Text
  import Seqs

  // ---- getInitials ----

  /** `n[0]` of a segment, joined as "" when the segment is empty. */
  function FirstChar(segment: string): string {
    if segment == "" then "" else [segment[0]]
  }

  /** `.map(n => n[0]).join("")` */
  function FirstChars(segments: seq<string>): string {
    if segments == [] then "" else FirstChar(segments[0]) + FirstChars(segments[1..])
  }

  function GetInitials(name: string): string {
    Text.UpperString(FirstChars(Text.Split(name, ' ')))
  }

  predicate NonEmpty(s: string) {
    s != ""
  }

  function NonEmptySegment(): string -> bool {
    (s: string) => NonEmpty(s)
  }

  lemma {:induction false} FirstCharsFacts(segments: seq<string>)
    ensures |FirstChars(segments)| == |Seqs.Filter(segments, NonEmptySegment())|
    ensures forall i :: 0 <= i < |FirstChars(segments)| ==>
              exists k :: 0 <= k < |segments| && segments[k] != "" && FirstChars(segments)[i] == segments[k][0]
  {
    if segments != [] {
      var rest := segments[1..];
      FirstCharsFacts(rest);
      var r := FirstChars(segments);
      var head := FirstChar(segments[0]);
      forall i | 0 <= i < |r|
        ensures exists k :: 0 <= k < |segments| && segments[k] != "" && r[i] == segments[k][0]
      {
        if i < |head| {
          assert r[i] == segments[0][0];
        } else {
          assert r[i] == FirstChars(rest)[i - |head|];
          var k :| 0 <= k < |rest| && rest[k] != "" && FirstChars(rest)[i - |head|] == rest[k][0];
          assert segments[k + 1] == rest[k];
        }
      }
    }
  }

  /** Empty segments add nothing: the first characters are those of the non-empty segments, in order. */
  lemma {:induction false} FirstCharsOfNonEmpty(segments: seq<string>)
    ensures var f := Seqs.Filter(segments, NonEmptySegment());
            |FirstChars(segments)| == |f| && forall i :: 0 <= i < |f| ==> FirstChars(segments)[i] == f[i][0]
  {
    if segments != [] {
      var rest := segments[1..];
      FirstCharsOfNonEmpty(rest);
      var f := Seqs.Filter(segments, NonEmptySegment());
      var g := Seqs.Filter(rest, NonEmptySegment());
      if segments[0] != "" {
        assert f == [segments[0]] + g;
        forall i | 0 <= i < |f| ensures FirstChars(segments)[i] == f[i][0] {
          if i > 0 {
            assert f[i] == g[i - 1];
          }
        }
      } else {
        assert f == g;
      }
    }
  }

  /**
   * The `i`-th initial is the upper-cased first character of the `i`-th
   * non-empty space-separated segment: one initial per such segment (so no
   * more than there are segments), in order, and never a space.
   */
  lemma InitialsCorrect(name: string)
    ensures var segments := Text.Split(name, ' ');
            var f := Seqs.Filter(segments, NonEmptySegment());
            var r := GetInitials(name);
            && |r| == |f| <= |segments|
            && (forall i :: 0 <= i < |f| ==> f[i] != "" && r[i] == Text.ToUpper(f[i][0]))
            && ' ' !in r
  {
    var segments := Text.Split(name, ' ');
    var r := GetInitials(name);
    FirstCharsFacts(segments);
    FirstCharsOfNonEmpty(segments);
    Text.SplitPartsLackSeparator(name, ' ');
    forall i | 0 <= i < |r| ensures r[i] != ' ' {
      var k :| 0 <= k < |segments| && segments[k] != "" && FirstChars(segments)[i] == segments[k][0];
      assert segments[k][0] in segments[k];
    }
  }

  // ---- generateUsername ----

  predicate IsLowerAlnum(c: char) {
    Text.IsAsciiLower(c) || Text.IsDigit(c)
  }

  function NotWhitespace(): char -> bool {
    (c: char) => !Text.IsJsWhitespace(c)
  }

  function LowerAlnum(): char -> bool {
    (c: char) => IsLowerAlnum(c)
  }

  /** `.toLowerCase().replace(/\s+/g, "").replace(/[^a-z0-9]/g, "")` */
  function GenerateUsername(name: string): string {
    Seqs.Filter(Seqs.Filter(Text.LowerString(name), NotWhitespace()), LowerAlnum())
  }

  /** The whitespace pass removes nothing the second pass would keep. */
  lemma WhitespacePassRedundant(name: string)
    ensures GenerateUsername(name) == Seqs.Filter(Text.LowerString(name), LowerAlnum())
  {
    var lower := Text.LowerString(name);
    Seqs.FilterFilter(lower, NotWhitespace(), LowerAlnum());
    Seqs.FilterCongruent(lower, Seqs.Both(NotWhitespace(), LowerAlnum()), LowerAlnum());
  }

  /**
   * A username holds only [a-z0-9], keeps those characters of the lowercased
   * name in order, and normalising it again changes nothing.
   */
  lemma UsernameCorrect(name: string)
    ensures forall i :: 0 <= i < |GenerateUsername(name)| ==> IsLowerAlnum(GenerateUsername(name)[i])
    ensures Seqs.IsSubsequence(GenerateUsername(name), Text.LowerString(name))
    ensures GenerateUsername(GenerateUsername(name)) == GenerateUsername(name)
  {
    var u := GenerateUsername(name);
    WhitespacePassRedundant(name);
    Seqs.FilterSubsequence(Text.LowerString(name), LowerAlnum());
    WhitespacePassRedundant(u);
    assert Text.LowerString(u) == u;
    Seqs.FilterAll(u, LowerAlnum());
  }

  // ---- isValidEmail ----

  /** `[^\s@]` */
  predicate PlainChar(c: char) {
    !Text.IsJsWhitespace(c) && c != '@'
  }

  /** `[^\s@]*`: no whitespace and no "@". */
  predicate PlainRun(s: string) {
    forall i :: 0 <= i < |s| ==> PlainChar(s[i])
  }

  lemma PlainRunJoin(a: string, c: char, b: string)
    requires PlainRun(a) && PlainChar(c) && PlainRun(b)
    ensures PlainRun(a + [c] + b)
  {
    var s := a + [c] + b;
    forall i | 0 <= i < |s| ensures PlainChar(s[i]) {
      if i < |a| {
        assert s[i] == a[i];
      } else if i > |a| {
        assert s[i] == b[i - |a| - 1];
      }
    }
  }

  /** Two "@"s, each with no "@" before it, are the same one. */
  lemma FirstAtUnique(s: string, a: nat, at: nat)
    requires a < |s| && at < |s| && s[a] == '@' && s[at] == '@'
    requires '@' !in s[..at] && PlainRun(s[..a])
    ensures a == at
  {
  }

  /**
   * `/^[^\s@]+@[^\s@]+\.[^\s@]+$/`: a run, "@", a run, ".", a run, each run
   * non-empty and free of whitespace and "@".
   */
  predicate EmailPattern(s: string) {
    exists at, dot :: 0 < at && at + 1 < dot && dot + 1 < |s| && s[at] == '@' && s[dot] == '.'
                      && PlainRun(s[..at]) && PlainRun(s[at + 1..dot]) && PlainRun(s[dot + 1..])
  }

  /** `emailRegex.test(email)`, decided by locating the "@" and then a "." inside the domain. */
  function IsValidEmail(s: string): (r: bool)
    ensures r <==> EmailPattern(s)
  {
    match Text.IndexOf(s, '@')
    case None =>
      false
    case Some(at) =>
      var domain := s[at + 1..];
      var result := at > 0 && PlainRun(s[..at]) && PlainRun(domain)
                    && exists k :: 0 < k < |domain| - 1 && domain[k] == '.';
      EmailDecision(s, at);
      result
  }

  /** A "." inside the domain gives the pattern's three runs. */
  lemma EmailDecisionIf(s: string, at: nat, k: nat)
    requires at < |s| && s[at] == '@' && at > 0 && PlainRun(s[..at])
    requires PlainRun(s[at + 1..]) && 0 < k < |s[at + 1..]| - 1 && s[at + 1..][k] == '.'
    ensures EmailPattern(s)
  {
    var domain := s[at + 1..];
    var dot := at + 1 + k;
    assert s[at + 1..dot] == domain[..k];
    assert s[dot + 1..] == domain[k + 1..];
  }

  /** Given the pattern's "@" and ".", the domain is one run holding a "." inside. */
  lemma DomainOfPattern(s: string, at: nat, dot: nat, domain: string)
    requires 0 < at && at + 1 < dot && dot + 1 < |s| && s[at] == '@' && s[dot] == '.'
    requires PlainRun(s[at + 1..dot]) && PlainRun(s[dot + 1..]) && domain == s[at + 1..]
    ensures PlainRun(domain)
    ensures exists k :: 0 < k < |domain| - 1 && domain[k] == '.'
  {
    var k := dot - at - 1;
    assert domain[k] == '.';
    var middle, tail := s[at + 1..dot], s[dot + 1..];
    assert domain == middle + ['.'] + tail;
    PlainRunJoin(middle, '.', tail);
  }

  /** The pattern's "@" is the first one, and its domain is one run holding a "." inside. */
  lemma EmailDecisionOnlyIf(s: string, at: nat, domain: string)
    requires at < |s| && s[at] == '@' && '@' !in s[..at] && EmailPattern(s) && domain == s[at + 1..]
    ensures at > 0 && PlainRun(s[..at]) && PlainRun(domain)
    ensures exists k :: 0 < k < |domain| - 1 && domain[k] == '.'
  {
    var a, dot :| 0 < a && a + 1 < dot && dot + 1 < |s| && s[a] == '@' && s[dot] == '.'
                  && PlainRun(s[..a]) && PlainRun(s[a + 1..dot]) && PlainRun(s[dot + 1..]);
    FirstAtUnique(s, a, at);
    DomainOfPattern(s, at, dot, domain);
  }

  lemma EmailDecision(s: string, at: nat)
    requires at < |s| && s[at] == '@' && '@' !in s[..at]
    ensures var domain := s[at + 1..];
            (at > 0 && PlainRun(s[..at]) && PlainRun(domain) && exists k :: 0 < k < |domain| - 1 && domain[k] == '.')
            <==> EmailPattern(s)
  {
    var domain := s[at + 1..];
    if at > 0 && PlainRun(s[..at]) && PlainRun(domain) && exists k :: 0 < k < |domain| - 1 && domain[k] == '.' {
      var k :| 0 < k < |domain| - 1 && domain[k] == '.';
      EmailDecisionIf(s, at, k);
    }
    if EmailPattern(s) {
      EmailDecisionOnlyIf(s, at, domain);
    }
  }

  /** A valid email has exactly one "@" and no whitespace. */
  lemma ValidEmailShape(s: string)
    requires IsValidEmail(s)
    ensures forall i :: 0 <= i < |s| ==> !Text.IsJsWhitespace(s[i])
    ensures forall i, j :: 0 <= i < |s| && 0 <= j < |s| && s[i] == '@' && s[j] == '@' ==> i == j
  {
    var at, dot :| 0 < at && at + 1 < dot && dot + 1 < |s| && s[at] == '@' && s[dot] == '.'
                   && PlainRun(s[..at]) && PlainRun(s[at + 1..dot]) && PlainRun(s[dot + 1..]);
    forall i | 0 <= i < |s| ensures !Text.IsJsWhitespace(s[i]) && (s[i] == '@' ==> i == at) {
      if i < at {
        assert s[i] == s[..at][i];
      } else if at < i < dot {
        assert s[i] == s[at + 1..dot][i - at - 1];
      } else if dot < i {
        assert s[i] == s[dot + 1..][i - dot - 1];
      }
    }
  }

  // ---- getFileExtension ----

  const TwoTo32 := 0x1_0000_0000

  /** `s.slice(start)` for a non-negative start. */
  function SliceFrom(s: string, start: nat): string {
    if start >= |s| then "" else s[start..]
  }

  /** `x >>> 0`: the 32-bit two's-complement reading of `x` as an unsigned number. */
  function ToUint32(x: int): (r: nat)
    ensures r < TwoTo32
  {
    x % TwoTo32
  }

  /** `((k - 1) >>> 0) + 2`: where the slice starts for a last-dot index `k`. */
  function ExtensionStart(k: int): nat {
    ToUint32(k - 1) + 2
  }

  /** For a name of length `n`, the start is just past the dot, or past the end when `k` is 0 or -1. */
  lemma ExtensionStartBounds(k: int, n: nat)
    requires -1 <= k < n < TwoTo32
    ensures k >= 1 ==> ExtensionStart(k) == k + 1
    ensures k <= 0 ==> ExtensionStart(k) >= n
  {
  }

  /** `filename.slice(((filename.lastIndexOf(".") - 1) >>> 0) + 2)` */
  function GetFileExtension(filename: string): string {
    SliceFrom(filename, ExtensionStart(Text.LastIndexOf(filename, '.')))
  }

  /**
   * For any name shorter than 2^32 characters: the text after the last ".",
   * or "" when there is no "." or the only dot-led part is the whole name
   * (a last "." at index 0). The shift turns -2 and -1 into numbers past the end.
   */
  lemma FileExtensionCorrect(filename: string)
    requires |filename| < TwoTo32
    ensures var k := Text.LastIndexOf(filename, '.');
            && (k >= 1 ==> GetFileExtension(filename) == filename[k + 1..] && '.' !in GetFileExtension(filename))
            && (k <= 0 ==> GetFileExtension(filename) == "")
  {
    var k := Text.LastIndexOf(filename, '.');
    ExtensionStartBounds(k, |filename|);
  }

  // ---- truncate ----

  /** `str.length > length ? str.substring(0, length) + "..." : str`; a negative length counts as 0. */
  function Truncate(s: string, length: int): (r: string)
    ensures |s| <= length ==> r == s
    ensures |s| > length ==>
              var keep := if length < 0 then 0 else length;
              |r| == keep + 3 && r[..keep] == s[..keep] && r[keep..] == "..."
  {
    if |s| > length then s[..if length < 0 then 0 else length] + "..." else s
  }

  /** Truncating a truncated string to the same length changes nothing. */
  lemma TruncateIdempotent(s: string, length: int)
    ensures Truncate(Truncate(s, length), length) == Truncate(s, length)
  {
    var t := Truncate(s, length);
    if |s| > length {
      var keep := if length < 0 then 0 else length;
      assert t[..keep] + "..." == t;
    }
  }

  // ---- generateAffiliateCode ----

  const Characters := "ABCDEFGHIJKLMNOPQRSTUVWXYZ0123456789"
  const Radix := 36
  const CodeLength := 8

  predicate IsDraw(x: real) {
    0.0 <= x < 1.0
  }

  /** `Math.floor(random * characters.length)`: the index a draw selects. */
  function Slot(random: real): (k: int)
    requires IsDraw(random)
    ensures 0 <= k < Radix
  {
    (random * Radix as real).Floor
  }

  /** `characters[Math.floor(random * characters.length)]` */
  function Pick(random: real): (c: char)
    requires IsDraw(random)
    ensures c in Characters
  {
    Characters[Slot(random)]
  }

  /** The code the loop builds from the first `CodeLength` draws. */
  function CodeOf(random: seq<real>): (code: string)
    requires |random| >= CodeLength && forall i :: 0 <= i < |random| ==> IsDraw(random[i])
    ensures |code| == CodeLength && forall c :: c in code ==> c in Characters
  {
    seq(CodeLength, i requires 0 <= i < CodeLength => Pick(random[i]))
  }

  lemma CodeOfStep(random: seq<real>, i: nat)
    requires |random| >= CodeLength && forall i :: 0 <= i < |random| ==> IsDraw(random[i])
    requires i < CodeLength
    ensures CodeOf(random)[..i + 1] == CodeOf(random)[..i] + [Pick(random[i])]
  {
    var code := CodeOf(random);
    assert code[i] == Pick(random[i]);
    assert code[..i + 1] == code[..i] + [code[i]];
  }

  /** `generateAffiliateCode()`: eight characters drawn from A-Z0-9. */
  method GenerateAffiliateCode(random: seq<real>) returns (code: string)
    requires |random| >= CodeLength && forall i :: 0 <= i < |random| ==> IsDraw(random[i])
    ensures code == CodeOf(random)
  {
    code := "";
    for i := 0 to CodeLength
      invariant code == CodeOf(random)[..i]
    {
      CodeOfStep(random, i);
      code := code + [Pick(random[i])];
    }
  }

  /** The draw `k / 36` selects index `k`. */
  lemma DrawScales(k: nat)
    requires k < Radix
    ensures IsDraw(k as real / Radix as real)
    ensures Slot(k as real / Radix as real) == k
  {
    var x := k as real / 36.0;
    assert x * 36.0 == k as real;
  }

  /** A draw that picks `c`: its index in the alphabet over 36. */
  function DrawFor(c: char): (x: real)
    requires c in Characters
    ensures IsDraw(x) && Pick(x) == c
  {
    var k := Text.IndexOf(Characters, c).value;
    DrawScales(k);
    k as real / Radix as real
  }

  /** Every eight-character code over the alphabet is produced by some draws. */
  lemma EveryCodeReachable(code: string)
    requires |code| == CodeLength && forall c :: c in code ==> c in Characters
    ensures exists random :: |random| == CodeLength && (forall i :: 0 <= i < |random| ==> IsDraw(random[i]))
                             && CodeOf(random) == code
  {
    var random := seq(CodeLength, i requires 0 <= i < CodeLength => DrawFor(code[i]));
    assert CodeOf(random) == code;
  }

}
