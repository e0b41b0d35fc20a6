/** `Adapter::filterEnvKey`: the sanitiser that makes a caller-supplied
    key safe to use as the name of an environment variable.

    `filterEnvKey` deletes every match of the pattern `[^A-Za-z0-9\_]`.
    The pattern has no `u` modifier, so it is matched byte by byte: every
    byte outside the 63 allowed ASCII bytes is deleted, which removes
    every byte of a multi-byte UTF-8 character as well. */
module EnvKey {
  import opened Bytes

  /** The bytes the pattern does NOT match: `A`-`Z`, `a`-`z`, `0`-`9`, `_`.
      None of them lies outside ASCII. */
  predicate IsKeyByte(b: byte): (r: bool)
    ensures r ==> b < 0x80
  {
    || ('A' as int <= b as int <= 'Z' as int)
    || ('a' as int <= b as int <= 'z' as int)
    || ('0' as int <= b as int <= '9' as int)
    || b as int == '_' as int
  }

  /** Every byte of `s` is one the filter keeps. */
  predicate AllKeyBytes(s: Bytes) {
    forall i :: 0 <= i < |s| ==> IsKeyByte(s[i])
  }

  /** No byte of `s` is one the filter keeps. */
  predicate NoKeyBytes(s: Bytes) {
    forall i :: 0 <= i < |s| ==> !IsKeyByte(s[i])
  }

  /** The result of `filterEnvKey(s)`: the bytes of `s` that are ASCII
      letters, digits or `_`, in their original order. The function is
      total; an input with no such byte gives the empty string. */
  function FilterEnvKey(s: Bytes): (r: Bytes)
    ensures |r| <= |s|
    ensures AllKeyBytes(r)
  {
    if s == [] then []
    else if IsKeyByte(s[0]) then [s[0]] + FilterEnvKey(s[1..])
    else FilterEnvKey(s[1..])
  }

  /** `t` can be obtained from `s` by deleting bytes: either `s[0]` is
      dropped, or it is kept as `t[0]`. */
  ghost predicate IsSubsequence(t: Bytes, s: Bytes)
    decreases |s|
  {
    t == [] ||
    (s != [] &&
      (IsSubsequence(t, s[1..]) || (t[0] == s[0] && IsSubsequence(t[1..], s[1..]))))
  }

  lemma {:induction false} SubsequencePrepend(t: Bytes, x: byte, s: Bytes)
    requires IsSubsequence(t, s)
    ensures IsSubsequence(t, [x] + s)
  {
    assert ([x] + s)[1..] == s;
  }

  /** Only deletions happen: the result keeps the input's order. */
  lemma {:induction false} FilterIsSubsequence(s: Bytes)
    ensures IsSubsequence(FilterEnvKey(s), s)
  {
    if s != [] {
      FilterIsSubsequence(s[1..]);
      var rest := FilterEnvKey(s[1..]);
      if IsKeyByte(s[0]) {
        assert ([s[0]] + rest)[1..] == rest;
      }
    }
  }

  /** Nothing allowed is deleted: any run of allowed bytes that can be
      picked out of `s` can be picked out of the result. With
      FilterIsSubsequence, the result is the longest subsequence of `s`
      made of allowed bytes, and every other one is a subsequence of it. */
  lemma {:induction false} FilterKeepsEveryKeySubsequence(t: Bytes, s: Bytes)
    requires IsSubsequence(t, s) && AllKeyBytes(t)
    ensures IsSubsequence(t, FilterEnvKey(s))
    decreases |s|
  {
    if t != [] {
      var rest := FilterEnvKey(s[1..]);
      if IsSubsequence(t, s[1..]) {
        FilterKeepsEveryKeySubsequence(t, s[1..]);
        if IsKeyByte(s[0]) {
          SubsequencePrepend(t, s[0], rest);
        }
      } else {
        assert t[0] == s[0] && IsSubsequence(t[1..], s[1..]);
        assert IsKeyByte(t[0]);
        assert AllKeyBytes(t[1..]) by {
          forall i | 0 <= i < |t[1..]| ensures IsKeyByte(t[1..][i]) {
            assert t[1..][i] == t[i + 1];
          }
        }
        FilterKeepsEveryKeySubsequence(t[1..], s[1..]);
        assert ([s[0]] + rest)[1..] == rest;
      }
    }
  }

  /** Each allowed byte occurs in the result exactly as often as in the
      input; every other byte does not occur at all. */
  lemma {:induction false} FilterCounts(s: Bytes, b: byte)
    ensures multiset(FilterEnvKey(s))[b] == if IsKeyByte(b) then multiset(s)[b] else 0
  {
    if s == [] {
    } else {
      FilterCounts(s[1..], b);
      assert s == [s[0]] + s[1..];
      assert multiset(s) == multiset{s[0]} + multiset(s[1..]);
    }
  }

  /** An input made only of allowed bytes comes back unchanged, and only
      such an input does. */
  lemma {:induction false} FilterFixpoint(s: Bytes)
    ensures FilterEnvKey(s) == s <==> AllKeyBytes(s)
  {
    if AllKeyBytes(s) && s != [] {
      assert AllKeyBytes(s[1..]) by {
        forall i | 0 <= i < |s[1..]| ensures IsKeyByte(s[1..][i]) {
          assert s[1..][i] == s[i + 1];
        }
      }
      FilterFixpoint(s[1..]);
      assert s == [s[0]] + s[1..];
    }
  }

  /** The length is kept exactly when nothing is deleted. */
  lemma {:induction false} FilterKeepsLength(s: Bytes)
    ensures |FilterEnvKey(s)| == |s| <==> AllKeyBytes(s)
  {
    if s != [] {
      FilterKeepsLength(s[1..]);
      if AllKeyBytes(s[1..]) && IsKeyByte(s[0]) {
        assert AllKeyBytes(s) by {
          forall i | 0 <= i < |s| ensures IsKeyByte(s[i]) {
            if i > 0 { assert s[i] == s[1..][i - 1]; }
          }
        }
      }
      if AllKeyBytes(s) {
        assert IsKeyByte(s[0]);
        assert AllKeyBytes(s[1..]) by {
          forall i | 0 <= i < |s[1..]| ensures IsKeyByte(s[1..][i]) {
            assert s[1..][i] == s[i + 1];
          }
        }
      }
    }
  }

  /** The result is empty exactly when the input has no allowed byte;
      that outcome is an ordinary result, not a failure. */
  lemma {:induction false} FilterEmpty(s: Bytes)
    ensures FilterEnvKey(s) == [] <==> NoKeyBytes(s)
  {
    if s != [] {
      FilterEmpty(s[1..]);
      if NoKeyBytes(s[1..]) && !IsKeyByte(s[0]) {
        assert NoKeyBytes(s) by {
          forall i | 0 <= i < |s| ensures !IsKeyByte(s[i]) {
            if i > 0 { assert s[i] == s[1..][i - 1]; }
          }
        }
      }
      if NoKeyBytes(s) {
        assert !IsKeyByte(s[0]);
        assert NoKeyBytes(s[1..]) by {
          forall i | 0 <= i < |s[1..]| ensures !IsKeyByte(s[1..][i]) {
            assert s[1..][i] == s[i + 1];
          }
        }
      }
    }
  }

  /** Filtering twice is the same as filtering once. */
  lemma FilterIdempotent(s: Bytes)
    ensures FilterEnvKey(FilterEnvKey(s)) == FilterEnvKey(s)
  {
    FilterFixpoint(FilterEnvKey(s));
  }

  /** The filter works on each byte on its own, so it distributes over
      concatenation. */
  lemma {:induction false} FilterConcat(a: Bytes, b: Bytes)
    ensures FilterEnvKey(a + b) == FilterEnvKey(a) + FilterEnvKey(b)
  {
    if a == [] {
      assert a + b == b;
    } else {
      assert (a + b)[0] == a[0];
      assert (a + b)[1..] == a[1..] + b;
      FilterConcat(a[1..], b);
    }
  }

  /** A dash and an exclamation mark are deleted, letters and digits kept. */
  lemma FilterExample()
    ensures FilterEnvKey(Ascii("FOO-BAR!1")) == Ascii("FOOBAR1")
  {
    var foo, dash, bar, bang, one: Bytes := [70, 79, 79], [45], [66, 65, 82], [33], [49];
    ExampleBytes();
    FilterFixpoint(foo);
    FilterFixpoint(bar);
    FilterFixpoint(one);
    FilterEmpty(dash);
    FilterEmpty(bang);
    FilterConcat(foo + dash + bar + bang, one);
    FilterConcat(foo + dash + bar, bang);
    FilterConcat(foo + dash, bar);
    FilterConcat(foo, dash);
  }

  /** The bytes of the two example strings, in the pieces `FOO`, `-`,
      `BAR`, `!` and `1`. */
  lemma ExampleBytes()
    ensures Ascii("FOO-BAR!1") == [70, 79, 79] + [45] + [66, 65, 82] + [33] + [49]
    ensures Ascii("FOOBAR1") == [70, 79, 79] + [66, 65, 82] + [49]
  {
  }
}
