/**
 * Clash of Clans tags as the bot handles them: `is_valid_tag`, `sanitize_tag`
 * and the handlers' inline normalisation `tag.upper().replace("#", "")`.
 */
module Tags {

  /** The fourteen characters a tag may be made of. */
  const TagAlphabet: string := "0289PYLQGRJCUV"

  predicate IsTagChar(c: char) {
    c in TagAlphabet
  }

  predicate AllTagChars(s: string) {
    forall i :: 0 <= i < |s| ==> IsTagChar(s[i])
  }

  /** A tag in the form the bot keeps it: non-empty and made of alphabet characters only. */
  predicate Canonical(s: string) {
    |s| > 0 && AllTagChars(s)
  }

  /** Python's `str.upper()` on one character (ASCII letters only, see README). */
  function UpperChar(c: char): char {
    if 'a' <= c <= 'z' then (c as int - 'a' as int + 'A' as int) as char else c
  }

  function Upper(s: string): string {
    seq(|s|, i requires 0 <= i < |s| => UpperChar(s[i]))
  }

  /** `s.replace("#", "")`: every '#' is dropped, wherever it stands. */
  function RemoveHashes(s: string): (r: string)
    ensures forall c :: c in r <==> c in s && c != '#'
    ensures |r| <= |s|
  {
    if s == [] then []
    else if s[0] == '#' then RemoveHashes(s[1..])
    else [s[0]] + RemoveHashes(s[1..])
  }

  /** The handlers' normalisation: upper-case, then drop every '#'. No trimming. */
  function Normalize(s: string): (r: string)
    ensures NormalForm(r) && |r| <= |s|
  {
    var r := RemoveHashes(Upper(s));
    assert NormalForm(r) by {
      forall i | 0 <= i < |r|
        ensures r[i] != '#' && UpperChar(r[i]) == r[i]
      {
        assert r[i] in r;
        assert r[i] in Upper(s);
      }
    }
    r
  }

  /**
   * `is_valid_tag`: the normalised tag is non-empty and drawn from the
   * alphabet (read character by character in `ValidTagCharwise`).
   */
  predicate IsValidTag(tag: string): (ok: bool)
    ensures ok ==> 0 < |Normalize(tag)| <= |tag|
  {
    Canonical(Normalize(tag))
  }

  /** Python's `str.isspace()` for one character. */
  predicate IsWhitespace(c: char) {
    var n := c as int;
    (9 <= n <= 13) || (28 <= n <= 32) || n == 0x85 || n == 0xA0 || n == 0x1680
    || (0x2000 <= n <= 0x200A) || n == 0x2028 || n == 0x2029 || n == 0x202F
    || n == 0x205F || n == 0x3000
  }

  function StripLeading(s: string): (r: string)
    ensures |r| <= |s|
  {
    if s != [] && IsWhitespace(s[0]) then StripLeading(s[1..]) else s
  }

  function StripTrailing(s: string): (r: string)
    ensures |r| <= |s|
  {
    if s != [] && IsWhitespace(s[|s| - 1]) then StripTrailing(s[..|s| - 1]) else s
  }

  /** Python's `str.strip()` with no argument. */
  function Strip(s: string): string {
    StripTrailing(StripLeading(s))
  }

  /** `sanitize_tag`: upper-case, drop every '#', then trim surrounding whitespace. */
  function SanitizeTag(tag: string): (r: string)
    ensures NormalForm(r)
    ensures r == [] || (!IsWhitespace(r[0]) && !IsWhitespace(r[|r| - 1]))
  {
    var n := Normalize(tag);
    var l := StripLeading(n);
    var r := StripTrailing(l);
    StripLeadingShape(n);
    StripTrailingShape(l);
    assert forall i :: 0 <= i < |l| ==> l[i] == n[|n| - |l| + i];
    assert forall i :: 0 <= i < |r| ==> r[i] == l[i];
    r
  }

  /** Characters that upper-casing and '#'-removal leave alone. */
  predicate NormalForm(s: string) {
    forall i :: 0 <= i < |s| ==> s[i] != '#' && UpperChar(s[i]) == s[i]
  }

  // ---------------------------------------------------------------------------
  // Lemmas

  lemma {:induction false} RemoveHashesOfHashFree(s: string)
    requires forall i :: 0 <= i < |s| ==> s[i] != '#'
    ensures RemoveHashes(s) == s
  {
    if s != [] {
      RemoveHashesOfHashFree(s[1..]);
    }
  }

  lemma {:induction false} RemoveHashesAppend(a: string, b: string)
    ensures RemoveHashes(a + b) == RemoveHashes(a) + RemoveHashes(b)
  {
    if a == [] {
      assert a + b == b;
    } else {
      assert (a + b)[1..] == a[1..] + b;
      RemoveHashesAppend(a[1..], b);
    }
  }

  /** Strings in normal form are left unchanged by the handlers' normalisation. */
  lemma NormalFormFixed(s: string)
    requires NormalForm(s)
    ensures Normalize(s) == s
  {
    assert Upper(s) == s;
    RemoveHashesOfHashFree(s);
  }

  /** Normalising twice is normalising once. */
  lemma NormalizeIdempotent(t: string)
    ensures Normalize(Normalize(t)) == Normalize(t)
  {
    NormalFormFixed(Normalize(t));
  }

  /**
   * The handlers normalise the tag and then call `is_valid_tag`, which
   * normalises again: the second check decides exactly what the first one
   * would, and a tag that passes is stored in canonical form.
   */
  lemma HandlerValidation(raw: string)
    ensures IsValidTag(Normalize(raw)) <==> IsValidTag(raw)
    ensures IsValidTag(raw) ==> Canonical(Normalize(raw))
  {
    NormalizeIdempotent(raw);
  }

  /**
   * `is_valid_tag` read character by character: some character is not '#',
   * and every character is a '#' or upper-cases into the alphabet. So "",
   * "#" and any tag holding a space or a symbol are rejected.
   */
  lemma ValidTagCharwise(t: string)
    ensures IsValidTag(t) <==>
              (exists i :: 0 <= i < |t| && t[i] != '#')
              && (forall i :: 0 <= i < |t| ==> t[i] == '#' || IsTagChar(UpperChar(t[i])))
  {
    var u := Upper(t);
    var n := Normalize(t);
    if IsValidTag(t) {
      assert n[0] in u;
      var k :| 0 <= k < |u| && u[k] == n[0];
      assert t[k] != '#';
      forall i | 0 <= i < |t| && t[i] != '#'
        ensures IsTagChar(UpperChar(t[i]))
      {
        assert u[i] in n;
        var j :| 0 <= j < |n| && n[j] == u[i];
      }
    }
    if (exists i :: 0 <= i < |t| && t[i] != '#')
       && (forall i :: 0 <= i < |t| ==> t[i] == '#' || IsTagChar(UpperChar(t[i])))
    {
      var k :| 0 <= k < |t| && t[k] != '#';
      assert u[k] in n;
      forall j | 0 <= j < |n|
        ensures IsTagChar(n[j])
      {
        assert n[j] in u;
        var i :| 0 <= i < |u| && u[i] == n[j];
      }
    }
  }

  /** `lstrip` removes a run of whitespace from the front and stops at the first other character. */
  lemma {:induction false} StripLeadingShape(s: string)
    ensures var r := StripLeading(s);
      && r == s[|s| - |r|..]
      && (r == [] || !IsWhitespace(r[0]))
      && forall i :: 0 <= i < |s| - |r| ==> IsWhitespace(s[i])
  {
    if s != [] && IsWhitespace(s[0]) {
      StripLeadingShape(s[1..]);
    }
  }

  /** `rstrip` removes a run of whitespace from the back and stops at the last other character. */
  lemma {:induction false} StripTrailingShape(s: string)
    ensures var r := StripTrailing(s);
      && r == s[..|r|]
      && (r == [] || !IsWhitespace(r[|r| - 1]))
      && forall i :: |r| <= i < |s| ==> IsWhitespace(s[i])
  {
    if s != [] && IsWhitespace(s[|s| - 1]) {
      StripTrailingShape(s[..|s| - 1]);
    }
  }

  /** A canonical tag passes validation and every normalisation leaves it as it is. */
  lemma CanonicalIsFixed(c: string)
    requires Canonical(c)
    ensures IsValidTag(c) && Normalize(c) == c && SanitizeTag(c) == c
  {
    NormalFormFixed(c);
    assert !IsWhitespace(c[0]) && !IsWhitespace(c[|c| - 1]);
    assert StripLeading(c) == c;
    assert StripTrailing(c) == c;
  }

  lemma {:induction false} StripLeadingPadding(w: string, c: string)
    requires forall i :: 0 <= i < |w| ==> IsWhitespace(w[i])
    requires c == [] || !IsWhitespace(c[0])
    ensures StripLeading(w + c) == c
  {
    if w != [] {
      assert (w + c)[1..] == w[1..] + c;
      StripLeadingPadding(w[1..], c);
    }
  }

  lemma {:induction false} StripTrailingPadding(c: string, w: string)
    requires forall i :: 0 <= i < |w| ==> IsWhitespace(w[i])
    requires c == [] || !IsWhitespace(c[|c| - 1])
    ensures StripTrailing(c + w) == c
  {
    if w != [] {
      assert (c + w)[..|c + w| - 1] == c + w[..|w| - 1];
      StripTrailingPadding(c, w[..|w| - 1]);
    }
  }

  predicate IsPadding(s: string) {
    forall i :: 0 <= i < |s| ==> s[i] == '#' || IsWhitespace(s[i])
  }

  lemma UpperOfPadded(pre: string, core: string, post: string)
    requires IsPadding(pre) && IsPadding(post)
    ensures Upper(pre + core + post) == pre + Upper(core) + post
  {
  }

  lemma RemoveHashesOfPadding(w: string)
    requires IsPadding(w)
    ensures forall i :: 0 <= i < |RemoveHashes(w)| ==> IsWhitespace(RemoveHashes(w)[i])
  {
    var r := RemoveHashes(w);
    forall i | 0 <= i < |r| ensures IsWhitespace(r[i]) {
      assert r[i] in w;
    }
  }

  predicate AllWhitespace(s: string) {
    forall i :: 0 <= i < |s| ==> IsWhitespace(s[i])
  }

  /** `str.strip()` gives back a canonical tag surrounded by whitespace. */
  lemma StripAroundCanonical(wl: string, n: string, wr: string)
    requires AllWhitespace(wl) && AllWhitespace(wr) && Canonical(n)
    ensures Strip(wl + n + wr) == n
  {
    assert !IsWhitespace(n[0]) && !IsWhitespace(n[|n| - 1]);
    assert wl + n + wr == wl + (n + wr);
    assert (n + wr)[0] == n[0];
    StripLeadingPadding(wl, n + wr);
    StripTrailingPadding(n, wr);
  }

  lemma NormalizePadded(pre: string, core: string, post: string)
    requires IsPadding(pre) && IsPadding(post)
    ensures Normalize(pre + core + post) == RemoveHashes(pre) + Normalize(core) + RemoveHashes(post)
    ensures AllWhitespace(RemoveHashes(pre)) && AllWhitespace(RemoveHashes(post))
  {
    UpperOfPadded(pre, core, post);
    RemoveHashesAppend(pre + Upper(core), post);
    RemoveHashesAppend(pre, Upper(core));
    RemoveHashesOfPadding(pre);
    RemoveHashesOfPadding(post);
  }

  /**
   * `sanitize_tag` ignores '#' signs and whitespace around a valid tag: it
   * yields exactly the normalised tag, which is valid in turn.
   */
  lemma SanitizeIgnoresPadding(pre: string, core: string, post: string)
    requires IsPadding(pre) && IsPadding(post)
    requires IsValidTag(core)
    ensures SanitizeTag(pre + core + post) == Normalize(core)
    ensures IsValidTag(SanitizeTag(pre + core + post))
  {
    var wl, n, wr := RemoveHashes(pre), Normalize(core), RemoveHashes(post);
    NormalizePadded(pre, core, post);
    assert SanitizeTag(pre + core + post) == Strip(wl + n + wr);
    StripAroundCanonical(wl, n, wr);
    CanonicalIsFixed(n);
  }

  /** A tag that `sanitize_tag` turns into a valid one comes out canonical. */
  lemma SanitizedValidIsCanonical(raw: string)
    requires IsValidTag(SanitizeTag(raw))
    ensures Canonical(SanitizeTag(raw))
  {
    NormalFormFixed(SanitizeTag(raw));
  }

  /** Tags the bot accepts: its own clan's, with or without '#' and in any case. */
  lemma AcceptedExamples()
    ensures IsValidTag("2L80RLGJ8") && IsValidTag("#2l80rlgj8")
  {
    var own := "2L80RLGJ8";
    assert Upper("#2l80rlgj8") == ['#'] + own;
    assert (['#'] + own)[1..] == own;
    RemoveHashesOfHashFree(own);
    CanonicalIsFixed(own);
  }

  /** One character that is neither '#' nor a tag character rejects the whole tag. */
  lemma BadCharRejects(t: string, i: nat)
    requires i < |t| && t[i] != '#' && !IsTagChar(UpperChar(t[i]))
    ensures !IsValidTag(t)
  {
    ValidTagCharwise(t);
  }

  /** Tags the bot rejects: empty, only '#', a symbol, a space inside. */
  lemma RejectedExamples()
    ensures !IsValidTag("") && !IsValidTag("#")
    ensures !IsValidTag("2L80RLGJ!") && !IsValidTag("2L80 RLGJ8")
  {
    assert !IsValidTag("") by {
      assert Normalize("") == "";
    }
    assert !IsValidTag("#") by {
      ValidTagCharwise("#");
    }
    assert !IsValidTag("2L80RLGJ!") by {
      assert !IsTagChar(UpperChar('!'));
      BadCharRejects("2L80RLGJ!", 8);
    }
    assert !IsValidTag("2L80 RLGJ8") by {
      assert !IsTagChar(UpperChar(' '));
      BadCharRejects("2L80 RLGJ8", 4);
    }
  }
}
