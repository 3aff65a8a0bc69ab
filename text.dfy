/**
 * String helpers that mirror the JavaScript string methods the site uses:
 * `toLowerCase`, `startsWith`, `includes` and `split('"')[1]`.
 */
module Text {

  /** Lower-cases one ASCII letter; every other character is left as it is. */
  function LowerChar(c: char): char
  {
    if 'A' <= c <= 'Z' then (c as int + 32) as char else c
  }

  /** `s.toLowerCase()`, restricted to the ASCII case mapping. */
  function ToLower(s: string): (r: string)
    ensures |r| == |s|
    ensures forall i :: 0 <= i < |s| ==> r[i] == LowerChar(s[i])
  {
    seq(|s|, i requires 0 <= i < |s| => LowerChar(s[i]))
  }

  /** `s.startsWith(prefix)`. */
  predicate StartsWith(s: string, prefix: string): (b: bool)
    ensures b <==> |prefix| <= |s| && forall i :: 0 <= i < |prefix| ==> s[i] == prefix[i]
  {
    |prefix| <= |s| && s[..|prefix|] == prefix
  }

  /** `s.includes(t)`, scanning the start positions of `s` from left to right. */
  predicate Includes(s: string, t: string): (b: bool)
    ensures b ==> |t| <= |s|
    ensures t == [] ==> b
    decreases |s|
  {
    StartsWith(s, t) || (|s| > 0 && Includes(s[1..], t))
  }

  /** `t` occurs in `s` starting at position `i`. */
  ghost predicate OccursAt(s: string, t: string, i: int)
  {
    0 <= i && i + |t| <= |s| && s[i..i + |t|] == t
  }

  /** The scan of `Includes` finds an occurrence exactly when one exists. */
  lemma {:induction false} IncludesIffOccurs(s: string, t: string)
    ensures Includes(s, t) <==> exists i :: OccursAt(s, t, i)
    decreases |s|
  {
    if |s| > 0 {
      IncludesIffOccurs(s[1..], t);
    }
    if Includes(s, t) {
      if StartsWith(s, t) {
        assert OccursAt(s, t, 0);
      } else {
        var i :| OccursAt(s[1..], t, i);
        assert s[i + 1..i + 1 + |t|] == s[1..][i..i + |t|];
        assert OccursAt(s, t, i + 1);
      }
    }
    if exists i :: OccursAt(s, t, i) {
      var i :| OccursAt(s, t, i);
      if i == 0 {
        assert StartsWith(s, t);
      } else {
        assert s[1..][i - 1..i - 1 + |t|] == s[i..i + |t|];
        assert OccursAt(s[1..], t, i - 1);
      }
    }
  }

  /** Substring inclusion is transitive. */
  lemma IncludesTransitive(a: string, b: string, c: string)
    requires Includes(a, b) && Includes(b, c)
    ensures Includes(a, c)
  {
    IncludesIffOccurs(a, b);
    IncludesIffOccurs(b, c);
    var i :| OccursAt(a, b, i);
    var j :| OccursAt(b, c, j);
    forall k | 0 <= k < |c|
      ensures a[i + j + k] == c[k]
    {
      assert c[k] == b[j..j + |c|][k] == b[j + k];
      assert b[j + k] == a[i..i + |b|][j + k] == a[i + j + k];
    }
    assert a[i + j..i + j + |c|] == c;
    assert OccursAt(a, c, i + j);
    IncludesIffOccurs(a, c);
  }

  /** A text lacking one of the characters of `t` does not include `t`. */
  lemma LacksCharExcludes(s: string, t: string, c: char)
    requires c in t && c !in s
    ensures !Includes(s, t)
  {
    IncludesIffOccurs(s, t);
  }

  /** Lower-casing both sides keeps an inclusion. */
  lemma IncludesToLower(s: string, t: string)
    requires Includes(s, t)
    ensures Includes(ToLower(s), ToLower(t))
  {
    IncludesIffOccurs(s, t);
    var i :| OccursAt(s, t, i);
    assert ToLower(s)[i..i + |t|] == ToLower(s[i..i + |t|]);
    assert OccursAt(ToLower(s), ToLower(t), i);
    IncludesIffOccurs(ToLower(s), ToLower(t));
  }

  /** Position of the first `c` in `s`, `s.indexOf(c)`: -1 when there is none. */
  function IndexOfChar(s: string, c: char): (r: int)
    ensures -1 <= r < |s|
    ensures r == -1 <==> c !in s
    ensures 0 <= r ==> s[r] == c && c !in s[..r]
  {
    if s == [] then -1
    else if s[0] == c then 0
    else
      var k := IndexOfChar(s[1..], c);
      if k == -1 then -1
      else
        assert s[..k + 1] == [s[0]] + s[1..][..k];
        k + 1
  }

  /** The first `c` of `a + [c] + b` is the one after `a` when `a` has none. */
  lemma IndexOfCharAfter(a: string, c: char, b: string)
    requires c !in a
    ensures IndexOfChar(a + [c] + b, c) == |a|
  {
    assert (a + [c] + b)[|a|] == c;
  }

  /**
   * `s.split('"')[1]`: the text between the first and the second double quote,
   * or up to the end when there is no second one. Without any quote the element
   * is `undefined`, which `setAttribute` stores as the string "undefined".
   */
  function SecondQuotedField(s: string): (r: string)
    ensures '"' !in r
  {
    var i := IndexOfChar(s, '"');
    if i < 0 then "undefined"
    else
      var rest := s[i + 1..];
      var j := IndexOfChar(rest, '"');
      if j < 0 then rest else rest[..j]
  }

  /** For a selector of the form `prefix"value"suffix` the field is exactly `value`. */
  lemma SecondQuotedFieldOf(prefix: string, value: string, suffix: string)
    requires '"' !in prefix && '"' !in value
    ensures SecondQuotedField(prefix + "\"" + value + "\"" + suffix) == value
  {
    var s := prefix + "\"" + value + "\"" + suffix;
    assert s[|prefix|] == '"';
    assert s[..|prefix|] == prefix;
    var rest := s[|prefix| + 1..];
    assert rest == value + "\"" + suffix;
    assert rest[|value|] == '"';
    assert rest[..|value|] == value;
  }
}
