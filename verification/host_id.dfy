/** The host identity of backend/rtc_node.py (`RTCNode.__init__`): the
    machine's 48-bit hardware address written as six colon-separated pairs
    of upper-case hex digits, `XX:XX:XX:XX:XX:XX`. The address itself is a
    parameter (the source asks the operating system for it). */
module HostId {

  /** The number of hex digits `%012X` pads to. */
  const Width: nat := 12

  /** 16^n. */
  function Pow16(n: nat): (p: nat)
    ensures p >= 1
  {
    if n == 0 then 1 else 16 * Pow16(n - 1)
  }

  /** The addresses a 48-bit hardware address can take. */
  predicate IsMac(mac: nat)
  {
    mac < Pow16(Width)
  }

  predicate IsUpperHex(c: char)
  {
    '0' <= c <= '9' || 'A' <= c <= 'F'
  }

  predicate AllUpperHex(s: string)
  {
    forall i :: 0 <= i < |s| ==> IsUpperHex(s[i])
  }

  /** The upper-case hex digit for 0..15. */
  function HexDigit(d: nat): (c: char)
    requires d < 16
    ensures IsUpperHex(c)
  {
    if d < 10 then ('0' as int + d) as char else ('A' as int + (d - 10)) as char
  }

  /** The value of an upper-case hex digit. */
  function DigitValue(c: char): (d: nat)
    requires IsUpperHex(c)
    ensures d < 16 && HexDigit(d) == c
  {
    if c <= '9' then c as int - '0' as int else 10 + (c as int - 'A' as int)
  }

  /** Python's `'%0{width}X' % n`: `n` in upper-case hex, left-padded with
      zeros to `width` digits, and longer when `n` needs more. Like Python it
      writes at least one digit, so zero at width 0 or 1 is `0`. */
  function HexPadded(n: nat, width: nat): string
    decreases n + width
  {
    if OneDigit(n, width) then [HexDigit(n)]
    else HexPadded(n / 16, if width == 0 then 0 else width - 1) + [HexDigit(n % 16)]
  }

  /** `n` padded to `width` is a single digit. */
  predicate OneDigit(n: nat, width: nat)
  {
    n < 16 && width <= 1
  }

  /** Reading a string of upper-case hex digits as a number. */
  function HexValue(s: string): nat
    requires AllUpperHex(s)
  {
    if s == [] then 0 else HexValue(s[..|s| - 1]) * 16 + DigitValue(s[|s| - 1])
  }

  /** `'%012X' % n` is made of upper-case hex digits. */
  lemma {:induction false} HexPaddedIsHex(n: nat, width: nat)
    ensures AllUpperHex(HexPadded(n, width))
    decreases n + width
  {
    if !OneDigit(n, width) {
      HexPaddedIsHex(n / 16, if width == 0 then 0 else width - 1);
    }
  }

  /** `'%0{width}X' % n` spells `n` exactly, and takes exactly `width`
      digits when the width is at least one and `n` fits in it (at width 0
      the one digit of `n < 1` exceeds the width). */
  lemma {:induction false} HexPaddedReadsBack(n: nat, width: nat)
    ensures AllUpperHex(HexPadded(n, width))
    ensures HexValue(HexPadded(n, width)) == n
    ensures width >= 1 && n < Pow16(width) ==> |HexPadded(n, width)| == width
    decreases n + width
  {
    HexPaddedIsHex(n, width);
    var s := HexPadded(n, width);
    if OneDigit(n, width) {
      DigitOfDigitValue(n);
      assert s[..0] == [];
    } else {
      var w' := if width == 0 then 0 else width - 1;
      HexPaddedReadsBack(n / 16, w');
      assert s[..|s| - 1] == HexPadded(n / 16, w');
      DigitOfDigitValue(n % 16);
      assert width >= 1 && n < Pow16(width) ==> w' >= 1 && n / 16 < Pow16(w');
    }
  }

  /** Reading the digit of `d` gives `d`. */
  lemma DigitOfDigitValue(d: nat)
    requires d < 16
    ensures DigitValue(HexDigit(d)) == d
  {
  }

  /** Zero is written `0` at widths 0 and 1, as Python writes `'%00X' % 0`
      and `'%01X' % 0`. */
  lemma ZeroTakesOneDigit()
    ensures HexPadded(0, 0) == "0" && HexPadded(0, 1) == "0"
  {
  }

  /** Padding the value of one or more hex digits to their number gives
      the digits back (no digits at all pad to `0`, see
      `ZeroTakesOneDigit`). */
  lemma {:induction false} HexPaddedOfValue(s: string)
    requires AllUpperHex(s) && |s| >= 1
    ensures HexPadded(HexValue(s), |s|) == s
  {
    var init := s[..|s| - 1];
    var v := HexValue(s);
    assert v / 16 == HexValue(init) && v % 16 == DigitValue(s[|s| - 1]);
    assert s == init + [s[|s| - 1]];
    if |s| == 1 {
      assert init == [];
      assert HexValue(init) == 0;
    } else {
      HexPaddedOfValue(init);
      HexValueBound(s);
    }
  }

  lemma {:induction false} HexPaddedAtLeastWidth(n: nat, width: nat)
    ensures |HexPadded(n, width)| >= width && |HexPadded(n, width)| >= 1
    decreases n + width
  {
    if !OneDigit(n, width) {
      HexPaddedAtLeastWidth(n / 16, if width == 0 then 0 else width - 1);
    }
  }

  lemma {:induction false} HexValueBound(s: string)
    requires AllUpperHex(s)
    ensures HexValue(s) < Pow16(|s|)
  {
    if s != [] {
      HexValueBound(s[..|s| - 1]);
    }
  }

  /** `':'.join(h[i:i+2] for i in range(0, len(h), 2))`: the digits in
      pairs, joined by colons. */
  function Group(h: string): string
    decreases |h|
  {
    if |h| <= 2 then h else h[..2] + ":" + Group(h[2..])
  }

  /** The host id: the first twelve digits of `'%012X' % mac`, grouped. */
  function HostIdOf(mac: nat): string
  {
    HexPaddedAtLeastWidth(mac, Width);
    Group(HexPadded(mac, Width)[..Width])
  }

  /** Pairs of upper-case hex digits separated by single colons. */
  predicate IsGrouped(s: string)
  {
    |s| % 3 == 2 &&
    forall i :: 0 <= i < |s| ==> if i % 3 == 2 then s[i] == ':' else IsUpperHex(s[i])
  }

  /** The shape of a host id: six pairs, seventeen characters. */
  predicate IsHostId(s: string)
  {
    |s| == 17 && IsGrouped(s)
  }

  /** Dropping the colons. */
  function RemoveColons(s: string): string
  {
    if s == [] then []
    else (if s[0] == ':' then [] else [s[0]]) + RemoveColons(s[1..])
  }

  lemma {:induction false} RemoveColonsAppend(a: string, b: string)
    ensures RemoveColons(a + b) == RemoveColons(a) + RemoveColons(b)
  {
    if a == [] {
      assert a + b == b;
    } else {
      var head: string := if a[0] == ':' then [] else [a[0]];
      assert (a + b)[0] == a[0];
      assert (a + b)[1..] == a[1..] + b;
      assert RemoveColons(a + b) == head + RemoveColons(a[1..] + b);
      RemoveColonsAppend(a[1..], b);
      assert RemoveColons(a) == head + RemoveColons(a[1..]);
    }
  }

  /** Two hex digits and a colon leave the two digits. */
  lemma RemoveColonsOfGroup(x: char, y: char, rest: string)
    requires x != ':' && y != ':'
    ensures RemoveColons([x, y]) == [x, y]
    ensures RemoveColons([x, y] + ":" + rest) == [x, y] + RemoveColons(rest)
  {
    assert [x, y][1..] == [y];
    assert [y][1..] == [];
    assert RemoveColons([y]) == [y] + RemoveColons([]);
    assert RemoveColons([x, y]) == [x] + RemoveColons([y]);
    assert ":"[1..] == [];
    assert RemoveColons(":") == [] + RemoveColons([]);
    RemoveColonsAppend([x, y] + ":", rest);
    RemoveColonsAppend([x, y], ":");
  }

  /** A pair of digits and a colon in front of grouped text is grouped. */
  lemma GroupedCons(x: char, y: char, tail: string)
    requires IsUpperHex(x) && IsUpperHex(y) && IsGrouped(tail)
    ensures IsGrouped([x, y] + ":" + tail)
  {
    var g := [x, y] + ":" + tail;
    forall i | 3 <= i < |g|
      ensures g[i] == tail[i - 3] && (i - 3) % 3 == i % 3
    {
    }
  }

  /** Grouped text longer than one pair is a pair, a colon, and grouped
      text. */
  lemma GroupedTail(s: string)
    requires IsGrouped(s) && |s| > 2
    ensures s == [s[0], s[1]] + ":" + s[3..]
    ensures IsUpperHex(s[0]) && IsUpperHex(s[1]) && IsGrouped(s[3..])
  {
    var rest := s[3..];
    forall i | 0 <= i < |rest|
      ensures rest[i] == s[i + 3] && (i + 3) % 3 == i % 3
    {
    }
    assert s[2] == ':';
  }

  /** Grouping an even number (at least two) of hex digits gives pairs
      separated by colons, and removing the colons gives the digits back. */
  lemma {:induction false} GroupOfDigits(h: string)
    requires AllUpperHex(h) && |h| % 2 == 0 && |h| >= 2
    ensures IsGrouped(Group(h))
    ensures 2 * (|Group(h)| + 1) == 3 * |h|
    ensures RemoveColons(Group(h)) == h
    decreases |h|
  {
    assert IsUpperHex(h[0]) && IsUpperHex(h[1]);
    if |h| == 2 {
      RemoveColonsOfGroup(h[0], h[1], "");
      assert h == [h[0], h[1]];
    } else {
      var rest := h[2..];
      GroupOfDigits(rest);
      var tail := Group(rest);
      assert h[..2] == [h[0], h[1]];
      assert Group(h) == [h[0], h[1]] + ":" + tail;
      GroupedCons(h[0], h[1], tail);
      RemoveColonsOfGroup(h[0], h[1], tail);
      assert h == [h[0], h[1]] + rest;
    }
  }

  /** Every grouped string is the grouping of its digits. */
  lemma {:induction false} GroupedDigits(s: string)
    requires IsGrouped(s)
    ensures AllUpperHex(RemoveColons(s))
    ensures 3 * |RemoveColons(s)| == 2 * (|s| + 1)
    ensures Group(RemoveColons(s)) == s
    decreases |s|
  {
    assert IsUpperHex(s[0]) && IsUpperHex(s[1]);
    if |s| == 2 {
      RemoveColonsOfGroup(s[0], s[1], "");
      assert s == [s[0], s[1]];
    } else {
      var rest := s[3..];
      GroupedTail(s);
      GroupedDigits(rest);
      RemoveColonsOfGroup(s[0], s[1], rest);
      var d := RemoveColons(s);
      assert d[..2] == [s[0], s[1]] && d[2..] == RemoveColons(rest);
    }
  }

  /** Reading a host id back: its digits without the colons, as hex. */
  function MacOf(s: string): nat
    requires IsHostId(s)
  {
    GroupedDigits(s);
    HexValue(RemoveColons(s))
  }

  /** For every 48-bit address the host id is seventeen characters — six
      pairs of upper-case hex digits joined by colons — and removing the
      colons and reading the rest as hex gives the address back. */
  lemma HostIdRoundTrip(mac: nat)
    requires IsMac(mac)
    ensures IsHostId(HostIdOf(mac))
    ensures RemoveColons(HostIdOf(mac)) == HexPadded(mac, Width)
    ensures MacOf(HostIdOf(mac)) == mac
  {
    var h := HexPadded(mac, Width);
    HexPaddedReadsBack(mac, Width);
    assert h[..Width] == h;
    GroupOfDigits(h);
  }

  /** Conversely, every well-formed host id is the host id of the address
      it spells: the format is a bijection onto `IsHostId`. */
  lemma HostIdOfMacOf(s: string)
    requires IsHostId(s)
    ensures IsMac(MacOf(s))
    ensures HostIdOf(MacOf(s)) == s
  {
    GroupedDigits(s);
    var d := RemoveColons(s);
    HexPaddedOfValue(d);
    HexValueBound(d);
    assert HexPadded(MacOf(s), Width) == d;
    assert d[..Width] == d;
  }
}
