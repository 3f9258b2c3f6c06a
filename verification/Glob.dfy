/** The glob matcher of the batch transfers: one pass with a single remembered star. */
module Glob {
  import opened Common
  import opened Utf8

  const STAR: byte := 42
  const ANY: byte := 63

  function Lower(c: int): int { if 65 <= c <= 90 then c + 32 else c }

  /** A pattern character other than a star accepts a text character; ASCII case is ignored. */
  predicate Accepts(c: int, b: int) { c == ANY || Lower(c) == Lower(b) }

  predicate IsLetter(c: int) { 'a' as int <= c <= 'z' as int || 'A' as int <= c <= 'Z' as int }

  /** What it accepts: anything for a question mark, the character itself, or the letter in its other
      case. */
  lemma AcceptsIff(c: int, b: int)
    ensures STAR == '*' as int
    ensures Accepts(c, b) <==> c == '?' as int || c == b || (IsLetter(c) && IsLetter(b) && (c - b == 32 || b - c == 32))
  {
  }

  // ---- Reference --------------------------------------------------------------------------

  /** The pattern from `i` matches the text from `j`: a star stands for any run of characters and a
      question mark for one. */
  predicate Matches(p: seq<scalar>, t: seq<scalar>, i: nat, j: nat)
    requires i <= |p| && j <= |t|
    decreases |p| - i + |t| - j
  {
    if i == |p| then j == |t|
    else if p[i] == STAR then Matches(p, t, i + 1, j) || (j < |t| && Matches(p, t, i, j + 1))
    else j < |t| && Accepts(p[i], t[j]) && Matches(p, t, i + 1, j + 1)
  }

  /** The same on bytes, which is what the code works on. */
  predicate MatchesBytes(p: seq<byte>, t: seq<byte>, i: nat, j: nat)
    requires i <= |p| && j <= |t|
    decreases |p| - i + |t| - j
  {
    if i == |p| then j == |t|
    else if p[i] == STAR then MatchesBytes(p, t, i + 1, j) || (j < |t| && MatchesBytes(p, t, i, j + 1))
    else j < |t| && Accepts(p[i], t[j]) && MatchesBytes(p, t, i + 1, j + 1)
  }

  // ---- The code ---------------------------------------------------------------------------

  /** The last star seen and where the text it covers began. */
  datatype Mark = Mark(p: nat, t: nat)

  predicate MarkOk(p: seq<byte>, t: seq<byte>, pi: nat, ti: nat, star: Option<Mark>) {
    && pi <= |p| && ti <= |t|
    && (star.Some? ==> star.value.p < pi && p[star.value.p] == STAR && star.value.t <= ti)
  }

  function TextLeft(t: seq<byte>, star: Option<Mark>): nat
    requires star.Some? ==> star.value.t <= |t|
  {
    if star.None? then |t| + 1 else |t| - star.value.t
  }

  predicate OnlyStars(p: seq<byte>, i: nat) { forall k :: i <= k < |p| ==> p[k] == STAR }

  /** The loop from a given state. */
  function Loop(p: seq<byte>, t: seq<byte>, pi: nat, ti: nat, star: Option<Mark>): bool
    requires MarkOk(p, t, pi, ti, star)
    decreases TextLeft(t, star), |t| - ti, |p| - pi
  {
    if ti == |t| then OnlyStars(p, pi)
    else if pi < |p| && Accepts(p[pi], t[ti]) then Loop(p, t, pi + 1, ti + 1, star)
    else if pi < |p| && p[pi] == STAR then Loop(p, t, pi + 1, ti, Some(Mark(pi, ti)))
    else if star.Some? then Loop(p, t, star.value.p + 1, star.value.t + 1, Some(Mark(star.value.p, star.value.t + 1)))
    else false
  }

  function GlobMatch(p: seq<byte>, t: seq<byte>): bool { Loop(p, t, 0, 0, None) }

  /** `glob_match`. */
  method Match(p: seq<byte>, t: seq<byte>) returns (r: bool)
    ensures r == GlobMatch(p, t)
  {
    var pi: nat, ti: nat := 0, 0;
    var star: Option<Mark> := None;
    while ti < |t|
      invariant MarkOk(p, t, pi, ti, star)
      invariant GlobMatch(p, t) == Loop(p, t, pi, ti, star)
      decreases TextLeft(t, star), |t| - ti, |p| - pi
    {
      if pi < |p| && Accepts(p[pi], t[ti]) {
        pi, ti := pi + 1, ti + 1;
      } else if pi < |p| && p[pi] == STAR {
        star := Some(Mark(pi, ti));
        pi := pi + 1;
      } else if star.Some? {
        star := Some(Mark(star.value.p, star.value.t + 1));
        pi, ti := star.value.p + 1, star.value.t;
      } else {
        return false;
      }
    }
    ghost var from := pi;
    while pi < |p| && p[pi] == STAR
      invariant 0 <= from <= pi <= |p|
      invariant forall k :: from <= k < pi ==> p[k] == STAR
    {
      pi := pi + 1;
    }
    r := pi == |p|;
  }

  // ---- Facts about matching ---------------------------------------------------------------

  predicate NoStars(s: seq<byte>, i: nat, e: nat) { forall k :: i <= k < e && k < |s| ==> s[k] != STAR }

  lemma {:induction false} StarAbsorbs(p: seq<byte>, t: seq<byte>, i: nat, b: nat, a: nat)
    requires i < |p| && p[i] == STAR && b <= a <= |t| && MatchesBytes(p, t, i, a)
    ensures MatchesBytes(p, t, i, b)
    decreases a - b
  {
    if b < a {
      StarAbsorbs(p, t, i, b + 1, a);
    }
  }

  lemma {:induction false} PlainPart(p: seq<byte>, t: seq<byte>, i: nat, k: nat, e: nat)
    requires i <= e <= |p| && k <= |t| && NoStars(p, i, e) && MatchesBytes(p, t, i, k)
    ensures k + e - i <= |t| && MatchesBytes(p, t, e, k + e - i)
    decreases e - i
  {
    if i < e {
      PlainPart(p, t, i + 1, k + 1, e);
    }
  }

  /** After a star, a plain part ends somewhere no earlier than its length allows. */
  lemma {:induction false} AfterStar(p: seq<byte>, t: seq<byte>, s: nat, k: nat, e: nat) returns (a: nat)
    requires s < e <= |p| && p[s] == STAR && k <= |t| && NoStars(p, s + 1, e) && MatchesBytes(p, t, s, k)
    ensures k + e - s - 1 <= a <= |t| && MatchesBytes(p, t, e, a)
    decreases |t| - k
  {
    if MatchesBytes(p, t, s + 1, k) {
      PlainPart(p, t, s + 1, k, e);
      a := k + e - s - 1;
    } else {
      a := AfterStar(p, t, s, k + 1, e);
    }
  }

  lemma {:induction false} AtEnd(p: seq<byte>, t: seq<byte>, i: nat)
    requires i <= |p|
    ensures OnlyStars(p, i) <==> MatchesBytes(p, t, i, |t|)
    decreases |p| - i
  {
    if i < |p| {
      AtEnd(p, t, i + 1);
      assert OnlyStars(p, i) <==> p[i] == STAR && OnlyStars(p, i + 1);
    }
  }

  // ---- The loop against the reference -----------------------------------------------------

  /** What can still match from a state: here, or with the remembered star covering more. */
  predicate Hope(p: seq<byte>, t: seq<byte>, pi: nat, ti: nat, star: Option<Mark>)
    requires MarkOk(p, t, pi, ti, star)
  {
    || MatchesBytes(p, t, pi, ti)
    || (star.Some? && star.value.t < |t| && MatchesBytes(p, t, star.value.p, star.value.t + 1))
  }

  /** Never a false match, whatever the text. */
  lemma {:induction false} LoopIsSound(p: seq<byte>, t: seq<byte>, pi: nat, ti: nat, star: Option<Mark>)
    requires MarkOk(p, t, pi, ti, star) && Loop(p, t, pi, ti, star)
    ensures Hope(p, t, pi, ti, star)
    decreases TextLeft(t, star), |t| - ti, |p| - pi
  {
    if ti == |t| {
      AtEnd(p, t, pi);
    } else if pi < |p| && Accepts(p[pi], t[ti]) {
      LoopIsSound(p, t, pi + 1, ti + 1, star);
    } else if pi < |p| && p[pi] == STAR {
      LoopIsSound(p, t, pi + 1, ti, Some(Mark(pi, ti)));
    } else {
      LoopIsSound(p, t, star.value.p + 1, star.value.t + 1, Some(Mark(star.value.p, star.value.t + 1)));
    }
  }

  /** Since the star, pattern and text have advanced together. */
  predicate InStep(p: seq<byte>, pi: nat, ti: nat, star: Option<Mark>) {
    if star.None? then pi == ti && NoStars(p, 0, pi)
    else star.value.p < pi && star.value.t <= ti && pi - star.value.p - 1 == ti - star.value.t && NoStars(p, star.value.p + 1, pi)
  }

  /** Earlier stars can be forgotten: what an earlier one could still cover, the new one can. */
  lemma NewStarTakesOver(p: seq<byte>, t: seq<byte>, pi: nat, ti: nat, star: Option<Mark>)
    requires MarkOk(p, t, pi, ti, star) && InStep(p, pi, ti, star) && pi < |p| && p[pi] == STAR
    requires Hope(p, t, pi, ti, star)
    ensures MatchesBytes(p, t, pi, ti)
  {
    if !MatchesBytes(p, t, pi, ti) {
      var a := AfterStar(p, t, star.value.p, star.value.t + 1, pi);
      StarAbsorbs(p, t, pi, ti, a);
    }
  }

  /** At the end of the text the remembered star is of no more use. */
  lemma NothingLeft(p: seq<byte>, t: seq<byte>, pi: nat, star: Option<Mark>)
    requires MarkOk(p, t, pi, |t|, star) && InStep(p, pi, |t|, star) && Hope(p, t, pi, |t|, star)
    ensures MatchesBytes(p, t, pi, |t|)
  {
    if star.Some? && star.value.t < |t| && MatchesBytes(p, t, star.value.p, star.value.t + 1) {
      var a := AfterStar(p, t, star.value.p, star.value.t + 1, pi);
    }
  }

  /** Text without stars: no match is missed. */
  lemma {:induction false} LoopIsComplete(p: seq<byte>, t: seq<byte>, pi: nat, ti: nat, star: Option<Mark>)
    requires STAR !in t && MarkOk(p, t, pi, ti, star) && InStep(p, pi, ti, star) && Hope(p, t, pi, ti, star)
    ensures Loop(p, t, pi, ti, star)
    decreases TextLeft(t, star), |t| - ti, |p| - pi
  {
    if ti == |t| {
      NothingLeft(p, t, pi, star);
      AtEnd(p, t, pi);
    } else if pi < |p| && Accepts(p[pi], t[ti]) {
      assert t[ti] != STAR;
      LoopIsComplete(p, t, pi + 1, ti + 1, star);
    } else if pi < |p| && p[pi] == STAR {
      NewStarTakesOver(p, t, pi, ti, star);
      LoopIsComplete(p, t, pi + 1, ti, Some(Mark(pi, ti)));
    } else {
      LoopIsComplete(p, t, star.value.p + 1, star.value.t + 1, Some(Mark(star.value.p, star.value.t + 1)));
    }
  }

  // ---- A star in the text -----------------------------------------------------------------

  /** For text with its first star at `n`: the text up to there, a star, and one `?` for every
      byte from the star on. */
  function Tricky(t: seq<byte>, n: nat): (p: seq<byte>)
    requires n < |t|
    ensures |p| == |t| + 1
  {
    t[..n] + [STAR] + seq(|t| - n, _ => ANY)
  }

  lemma {:induction false} TrickyQuestions(t: seq<byte>, n: nat, i: nat)
    requires n < |t| && n < i <= |t| + 1
    ensures MatchesBytes(Tricky(t, n), t, i, i - 1)
    decreases |t| + 1 - i
  {
    if i <= |t| {
      TrickyQuestions(t, n, i + 1);
    }
  }

  lemma {:induction false} TrickyMatches(t: seq<byte>, n: nat, i: nat)
    requires n < |t| && NoStars(t, 0, n) && i <= n
    ensures MatchesBytes(Tricky(t, n), t, i, i)
    decreases n - i
  {
    if i == n {
      TrickyQuestions(t, n, n + 1);
    } else {
      TrickyMatches(t, n, i + 1);
    }
  }

  lemma {:induction false} TrickyIsMissed(t: seq<byte>, n: nat, k: nat)
    requires n < |t| && t[n] == STAR && k <= |t|
    ensures !Loop(Tricky(t, n), t, k, k, None)
    decreases |t| - k
  {
    if k < |t| {
      TrickyIsMissed(t, n, k + 1);
    } else {
      assert Tricky(t, n)[|t|] == ANY;
    }
  }

  lemma {:induction false} FirstStar(t: seq<byte>, k: nat) returns (n: nat)
    requires k <= |t| && NoStars(t, 0, k) && STAR in t[k..]
    ensures n < |t| && t[n] == STAR && NoStars(t, 0, n)
    decreases |t| - k
  {
    if t[k] == STAR {
      n := k;
    } else {
      assert t[k..] == [t[k]] + t[k + 1..];
      n := FirstStar(t, k + 1);
    }
  }

  /** On bytes the matcher is exact exactly for texts without a star: a star in the text is consumed
      literally by a star in the pattern. */
  lemma ExactOnBytesIff(t: seq<byte>)
    ensures (forall p :: GlobMatch(p, t) == MatchesBytes(p, t, 0, 0)) <==> STAR !in t
    ensures forall p :: GlobMatch(p, t) ==> MatchesBytes(p, t, 0, 0)
  {
    forall p | GlobMatch(p, t) ensures MatchesBytes(p, t, 0, 0) {
      LoopIsSound(p, t, 0, 0, None);
    }
    if STAR !in t {
      forall p | MatchesBytes(p, t, 0, 0) ensures GlobMatch(p, t) {
        LoopIsComplete(p, t, 0, 0, None);
      }
    } else {
      assert t[0..] == t;
      var n := FirstStar(t, 0);
      TrickyMatches(t, n, 0);
      TrickyIsMissed(t, n, 0);
      assert GlobMatch(Tricky(t, n), t) != MatchesBytes(Tricky(t, n), t, 0, 0);
    }
  }

  // ---- Characters -------------------------------------------------------------------------

  /** A pattern character in the encoded pattern: itself, or a byte that no ASCII byte equals. */
  lemma PatternByte(p: seq<scalar>, i: nat)
    requires i < |p|
    ensures var b, o := EncodeAll(p), Offset(p, i);
      && o < |b| && Offset(p, i + 1) <= |b|
      && (if p[i] < 128 then b[o] == p[i] && Offset(p, i + 1) == o + 1 else b[o] >= 0xC0)
  {
    CharSplit(p, i);
    EncodeShape(p[i]);
    assert EncodeAll(p)[Offset(p, i)] == Encode(p[i])[0];
  }

  lemma OffsetEnds(p: seq<scalar>)
    ensures Offset(p, 0) == 0 && Offset(p, |p|) == |EncodeAll(p)|
  {
    assert p[..0] == [] && p[..|p|] == p;
  }

  /** Against ASCII text, characters and bytes agree. */
  lemma {:induction false} SameOnAscii(p: seq<scalar>, t: seq<scalar>, b: seq<byte>, c: seq<byte>, i: nat, j: nat, o: nat)
    requires b == EncodeAll(p) && |c| == |t| && (forall k :: 0 <= k < |t| ==> c[k] == t[k] < 128)
    requires i <= |p| && j <= |t| && o == Offset(p, i)
    ensures o <= |b| && MatchesBytes(b, c, o, j) == Matches(p, t, i, j)
    decreases |p| - i + |t| - j
  {
    if i == |p| {
      OffsetEnds(p);
    } else {
      PatternByte(p, i);
      if p[i] == STAR {
        SameOnAscii(p, t, b, c, i + 1, j, o + 1);
        if j < |t| {
          SameOnAscii(p, t, b, c, i, j + 1, o);
        }
      } else if j < |t| && p[i] < 128 {
        SameOnAscii(p, t, b, c, i + 1, j + 1, o + 1);
      }
    }
  }

  /** `n` question marks. */
  function Questions(n: nat): (p: seq<scalar>)
    ensures |p| == n && forall i :: 0 <= i < n ==> p[i] == ANY
  {
    seq(n, _ => ANY as int)
  }

  lemma {:induction false} QuestionsCount(n: nat, t: seq<scalar>, i: nat, j: nat)
    requires i <= n && j <= |t|
    ensures Matches(Questions(n), t, i, j) <==> n - i == |t| - j
    decreases n - i
  {
    if i < n && j < |t| {
      QuestionsCount(n, t, i + 1, j + 1);
    }
  }

  lemma {:induction false} QuestionsLoop(p: seq<byte>, b: seq<byte>, k: nat)
    requires k <= |p| && k <= |b| && forall i :: 0 <= i < |p| ==> p[i] == ANY
    ensures Loop(p, b, k, k, None) <==> |p| == |b|
    decreases |p| - k
  {
    if k < |p| && k < |b| {
      QuestionsLoop(p, b, k + 1);
    } else if k < |p| {
      assert p[k] != STAR;
    }
  }

  /** Question marks count characters in the reference and bytes in the code. */
  lemma QuestionsDiffer(n: nat, t: seq<scalar>)
    ensures Matches(Questions(n), t, 0, 0) <==> n == |t|
    ensures GlobMatch(EncodeAll(Questions(n)), EncodeAll(t)) <==> n == |EncodeAll(t)|
  {
    QuestionsCount(n, t, 0, 0);
    AsciiBytes(Questions(n));
    QuestionsLoop(EncodeAll(Questions(n)), EncodeAll(t), 0);
  }

  ghost predicate AgreesOn(p: seq<scalar>, t: seq<scalar>) {
    GlobMatch(EncodeAll(p), EncodeAll(t)) == Matches(p, t, 0, 0)
  }

  ghost predicate SoundOn(p: seq<scalar>, t: seq<scalar>) {
    GlobMatch(EncodeAll(p), EncodeAll(t)) ==> Matches(p, t, 0, 0)
  }

  lemma BytesAreChars(p: seq<scalar>, t: seq<scalar>)
    requires Ascii(t)
    ensures MatchesBytes(EncodeAll(p), EncodeAll(t), 0, 0) == Matches(p, t, 0, 0)
  {
    AsciiBytes(t);
    OffsetEnds(p);
    SameOnAscii(p, t, EncodeAll(p), EncodeAll(t), 0, 0, 0);
  }

  /** The pattern that is missed, as text. */
  function TrickyText(t: seq<scalar>, n: nat): (p: seq<scalar>)
    requires n < |t|
    ensures |p| == |t| + 1
    ensures forall i :: 0 <= i < |p| ==> p[i] == if i < n then t[i] else if i == n then STAR as int else ANY as int
  {
    t[..n] + [STAR as int] + Questions(|t| - n)
  }

  lemma TrickyTextBytes(t: seq<scalar>, n: nat, b: seq<byte>)
    requires n < |t| && Ascii(t) && |b| == |t| && forall i :: 0 <= i < |t| ==> b[i] == t[i]
    ensures EncodeAll(TrickyText(t, n)) == Tricky(b, n)
  {
    var p := TrickyText(t, n);
    AsciiBytes(p);
    forall i | 0 <= i < |p| ensures EncodeAll(p)[i] == Tricky(b, n)[i] {
    }
  }

  lemma StarIsMissed(t: seq<scalar>) returns (p: seq<scalar>)
    requires Ascii(t) && STAR in t
    ensures !AgreesOn(p, t)
  {
    AsciiBytes(t);
    var b := EncodeAll(t);
    var n := FirstStarOf(t, b);
    TrickyMatches(b, n, 0);
    TrickyIsMissed(b, n, 0);
    TrickyTextBytes(t, n, b);
    p := TrickyText(t, n);
    BytesAreChars(p, t);
  }

  lemma FirstStarOf(t: seq<scalar>, b: seq<byte>) returns (n: nat)
    requires STAR in t && |b| == |t| && forall i :: 0 <= i < |t| ==> b[i] == t[i]
    ensures n < |b| && b[n] == STAR && NoStars(b, 0, n)
  {
    var k :| 0 <= k < |t| && t[k] == STAR;
    assert b[k] == STAR && b[0..] == b;
    n := FirstStar(b, 0);
  }

  /** The matcher means what `*` and `?` are documented to mean, on every pattern, exactly for ASCII
      texts without a star. */
  lemma ExactIff(t: seq<scalar>)
    ensures (forall p :: AgreesOn(p, t)) <==> Ascii(t) && STAR !in t
  {
    AsciiLength(t);
    if !Ascii(t) {
      QuestionsDiffer(|t|, t);
      assert !AgreesOn(Questions(|t|), t);
    } else if STAR in t {
      var p := StarIsMissed(t);
    } else {
      AsciiBytes(t);
      ExactOnBytesIff(EncodeAll(t));
      forall p ensures AgreesOn(p, t) {
        BytesAreChars(p, t);
      }
    }
  }

  /** What it reports is a match, on every pattern, exactly for ASCII texts. */
  lemma SoundIff(t: seq<scalar>)
    ensures (forall p :: SoundOn(p, t)) <==> Ascii(t)
  {
    AsciiLength(t);
    if Ascii(t) {
      ExactOnBytesIff(EncodeAll(t));
      forall p ensures SoundOn(p, t) {
        BytesAreChars(p, t);
      }
    } else {
      QuestionsDiffer(|EncodeAll(t)|, t);
      assert !SoundOn(Questions(|EncodeAll(t)|), t);
    }
  }

  /** For example `é`: one question mark misses it, and two match it. */
  lemma AccentExample(t: seq<scalar>)
    requires t == [0xE9]
    ensures Matches(Questions(1), t, 0, 0) && !GlobMatch(EncodeAll(Questions(1)), EncodeAll(t))
    ensures !Matches(Questions(2), t, 0, 0) && GlobMatch(EncodeAll(Questions(2)), EncodeAll(t))
  {
    EncodeOne(0xE9);
    QuestionsDiffer(1, t);
    QuestionsDiffer(2, t);
  }
}
