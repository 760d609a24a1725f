/** Byte lengths of Rust `String`s (UTF-8) and the byte-range slice
    `str::get(0..n)`, which only succeeds on a character boundary. */
module Utf8 {
  import opened Common

  /** Number of UTF-8 bytes that encode one Unicode scalar value */
  function CharBytes(c: char): (n: nat)
    ensures 1 <= n <= 4
  {
    if c as int < 0x80 then 1
    else if c as int < 0x800 then 2
    else if c as int < 0x1_0000 then 3
    else 4
  }

  /** `String::len()`: the length in bytes, not in characters */
  function ByteLen(s: string): nat
    decreases |s|
  {
    if |s| == 0 then 0 else CharBytes(s[0]) + ByteLen(s[1..])
  }

  lemma {:induction false} ByteLenAppend(a: string, b: string)
    ensures ByteLen(a + b) == ByteLen(a) + ByteLen(b)
    decreases |a|
  {
    if |a| == 0 {
      assert a + b == b;
    } else {
      assert (a + b)[0] == a[0];
      assert (a + b)[1..] == a[1..] + b;
      ByteLenAppend(a[1..], b);
    }
  }

  /** `s.get(0..n)`: the prefix of `s` that is exactly `n` bytes long, or
      `None` when byte `n` is past the end or inside a multi-byte character. */
  function PrefixOfBytes(s: string, n: nat): (r: Option<string>)
    ensures r.Some? ==> IsPrefix(r.value, s) && ByteLen(r.value) == n
    ensures r.None? ==> forall k :: 0 <= k <= |s| ==> ByteLen(s[..k]) != n
    decreases |s|
  {
    if n == 0 then Some([])
    else if |s| == 0 || CharBytes(s[0]) > n then
      assert forall k :: 0 < k <= |s| ==> ByteLen(s[..k]) >= CharBytes(s[0]) by {
        forall k | 0 < k <= |s| ensures ByteLen(s[..k]) >= CharBytes(s[0]) {
          assert s[..k][0] == s[0];
        }
      }
      None
    else
      match PrefixOfBytes(s[1..], n - CharBytes(s[0]))
      case Some(p) =>
        assert s[..|p| + 1] == [s[0]] + p;
        Some([s[0]] + p)
      case None =>
        assert forall k :: 0 < k <= |s| ==> ByteLen(s[..k]) == CharBytes(s[0]) + ByteLen(s[1..][..k - 1]) by {
          forall k | 0 < k <= |s| ensures ByteLen(s[..k]) == CharBytes(s[0]) + ByteLen(s[1..][..k - 1]) {
            assert s[..k][1..] == s[1..][..k - 1];
          }
        }
        None
  }

  /** The display-column width of `account_platform_data.value` */
  const DisplayWidth: nat := 255

  /** The trimmed display copy of a platform-data value: the value itself
      when it fits in 255 bytes; otherwise its first 255 bytes when byte 255
      is a character boundary, and the empty string when it is not. */
  function Display(value: string): (r: string)
    ensures IsPrefix(r, value) && ByteLen(r) <= DisplayWidth
    ensures r == value <==> ByteLen(value) <= DisplayWidth
    ensures ByteLen(value) > DisplayWidth ==>
      (r == [] <==> forall k :: 0 <= k <= |value| ==> ByteLen(value[..k]) != DisplayWidth)
    ensures ByteLen(value) > DisplayWidth && r != [] ==> ByteLen(r) == DisplayWidth
  {
    if ByteLen(value) > DisplayWidth then
      match PrefixOfBytes(value, DisplayWidth)
      case Some(p) => p
      case None => []
    else value
  }

  predicate Ascii(s: string) {
    forall i :: 0 <= i < |s| ==> s[i] as int < 0x80
  }

  lemma {:induction false} AsciiByteLen(s: string)
    requires Ascii(s)
    ensures ByteLen(s) == |s|
    decreases |s|
  {
    if |s| > 0 {
      AsciiByteLen(s[1..]);
    }
  }

  /** For ASCII text, bytes are characters: an over-long value displays as
      its first 255 characters. */
  lemma AsciiDisplayTruncates(value: string)
    requires Ascii(value) && |value| > DisplayWidth
    ensures Display(value) == value[..DisplayWidth]
  {
    AsciiByteLen(value);
    AsciiByteLen(value[..DisplayWidth]);
    var r := Display(value);
    assert r != [];
    assert Ascii(r) by {
      forall i | 0 <= i < |r| ensures r[i] as int < 0x80 {
        assert r[i] == value[i];
      }
    }
    AsciiByteLen(r);
  }

  /** 128 copies of the two-byte character U+00E9 take 256 bytes; byte 255
      falls inside the last character, so the display copy is empty rather
      than the first 127 characters. */
  lemma SplitCharacterDisplaysEmpty()
    ensures Display(seq(128, _ => 'é')) == []
  {
    var s := seq(128, _ => 'é');
    TwoByteLen(s);
    forall k | 0 <= k <= |s| ensures ByteLen(s[..k]) != DisplayWidth {
      TwoByteLen(s[..k]);
    }
  }

  lemma {:induction false} TwoByteLen(s: string)
    requires forall i :: 0 <= i < |s| ==> s[i] == 'é'
    ensures ByteLen(s) == 2 * |s|
    decreases |s|
  {
    if |s| > 0 {
      TwoByteLen(s[1..]);
    }
  }
}
