/** The .NET string operations the core relies on: white space as `char.IsWhiteSpace`
    defines it, FluentValidation's `NotEmpty` on strings, `string.Contains`,
    `TrimEnd('.')` and `string.Join`. Strings are sequences of UTF-16 code units. */
module Text {

  /** `char.IsWhiteSpace`: the Latin-1 white-space characters and the Unicode
      space, line and paragraph separators. */
  predicate IsWhiteSpace(c: char)
  {
    var n := c as int;
    n == 0x20 || 0x09 <= n <= 0x0D || n == 0x85 || n == 0xA0 || n == 0x1680
    || 0x2000 <= n <= 0x200A || n == 0x2028 || n == 0x2029 || n == 0x202F
    || n == 0x205F || n == 0x3000
  }

  /** FluentValidation's `NotEmpty()` on a string: not null, not "" and not made
      of white space only (null strings are modelled as ""). */
  predicate NotEmpty(s: string)
  {
    exists i :: 0 <= i < |s| && !IsWhiteSpace(s[i])
  }

  /** `hay.Contains(needle)`: ordinal substring test. */
  predicate Contains(hay: string, needle: string)
  {
    exists i :: 0 <= i <= |hay| - |needle| && OccursAt(hay, needle, i)
  }

  predicate OccursAt(hay: string, needle: string, i: int)
  {
    0 <= i <= |hay| - |needle| && hay[i..i + |needle|] == needle
  }

  /** `s.TrimEnd('.')`: the longest prefix of `s` that does not end in '.'; what is
      cut off is made of dots only. */
  function TrimEndDots(s: string): (r: string)
    ensures r <= s
    ensures r == [] || r[|r| - 1] != '.'
    ensures forall i :: |r| <= i < |s| ==> s[i] == '.'
  {
    if s != [] && s[|s| - 1] == '.' then TrimEndDots(s[..|s| - 1]) else s
  }

  /** Trimming is idempotent. */
  lemma TrimEndDotsIdempotent(s: string)
    ensures TrimEndDots(TrimEndDots(s)) == TrimEndDots(s)
  {
  }

  /** Trimming only changes a message that ends in '.', and then only by the
      trailing dots. */
  lemma {:induction false} TrimEndDotsAppend(s: string, k: nat)
    requires s == [] || s[|s| - 1] != '.'
    ensures TrimEndDots(s + Dots(k)) == s
  {
    if k > 0 {
      assert (s + Dots(k))[..|s| + k - 1] == s + Dots(k - 1);
      TrimEndDotsAppend(s, k - 1);
    }
  }

  function Dots(k: nat): (r: string)
    ensures |r| == k && forall i :: 0 <= i < k ==> r[i] == '.'
  {
    if k == 0 then [] else Dots(k - 1) + ['.']
  }

  /** `string.Join(sep, xs)`. */
  function Join(xs: seq<string>, sep: string): (r: string)
    ensures |xs| == 1 ==> r == xs[0]
    ensures xs == [] ==> r == []
  {
    if |xs| == 0 then []
    else if |xs| == 1 then xs[0]
    else Join(xs[..|xs| - 1], sep) + sep + xs[|xs| - 1]
  }

  /** Joining one more part appends the separator and that part; with the empty and
      one-part cases of `Join` this fixes the joined text. */
  lemma JoinAppend(xs: seq<string>, x: string, sep: string)
    requires xs != []
    ensures Join(xs + [x], sep) == Join(xs, sep) + sep + x
  {
    assert (xs + [x])[..|xs|] == xs;
  }

  /** The joined text is as long as every part plus one separator between each two. */
  lemma {:induction false} JoinLength(xs: seq<string>, sep: string)
    ensures |Join(xs, sep)| == TotalLength(xs) + (if xs == [] then 0 else (|xs| - 1) * |sep|)
  {
    if |xs| > 1 {
      var init, n := xs[..|xs| - 1], |xs| - 1;
      JoinLength(init, sep);
      assert |Join(xs, sep)| == |Join(init, sep)| + |sep| + |xs[n]|;
      assert TotalLength(xs) == TotalLength(init) + |xs[n]|;
      assert (n - 1) * |sep| + |sep| == n * |sep|;
    }
  }

  function TotalLength(xs: seq<string>): nat
  {
    if xs == [] then 0 else TotalLength(xs[..|xs| - 1]) + |xs[|xs| - 1]|
  }

  lemma TotalLengthAppend(xs: seq<string>, x: string)
    ensures TotalLength(xs + [x]) == TotalLength(xs) + |x|
  {
    assert (xs + [x])[..|xs|] == xs;
  }

  /** Every part can be found again in the joined text. */
  lemma {:induction false} JoinContainsEach(xs: seq<string>, sep: string, i: nat)
    requires i < |xs|
    ensures Contains(Join(xs, sep), xs[i])
  {
    var j := Join(xs, sep);
    if |xs| == 1 {
      assert OccursAt(j, xs[i], 0);
    } else {
      var init := Join(xs[..|xs| - 1], sep);
      assert j == init + sep + xs[|xs| - 1];
      if i == |xs| - 1 {
        assert j[|init + sep|..] == xs[i];
        assert OccursAt(j, xs[i], |init + sep|);
      } else {
        JoinContainsEach(xs[..|xs| - 1], sep, i);
        var k :| 0 <= k <= |init| - |xs[i]| && OccursAt(init, xs[i], k);
        assert j[k..k + |xs[i]|] == init[k..k + |xs[i]|];
        assert OccursAt(j, xs[i], k);
      }
    }
  }
}
