/** The Redis key of a retry counter, `dlq:retry:<stream>:<group>:<message id>`, with percent-encoding. */
module CounterKeys {

  /** The characters `encodeURIComponent` leaves alone. */
  predicate Unreserved(c: char) {
    || 'A' <= c <= 'Z'
    || 'a' <= c <= 'z'
    || '0' <= c <= '9'
    || c in "-_.!~*'()"
  }

  /** The UTF-8 octets of a character. */
  function Utf8(c: char): (bytes: seq<nat>)
    ensures 1 <= |bytes| <= 4
    ensures forall i :: 0 <= i < |bytes| ==> bytes[i] < 256
  {
    var n := c as int;
    if n < 0x80 then [n]
    else if n < 0x800 then [0xC0 + n / 64, 0x80 + n % 64]
    else if n < 0x1_0000 then [0xE0 + n / 4096, 0x80 + n / 64 % 64, 0x80 + n % 64]
    else
      assert n < 0x11_0000;
      [0xF0 + n / 262144, 0x80 + n / 4096 % 64, 0x80 + n / 64 % 64, 0x80 + n % 64]
  }

  function Hex(n: nat): char
    requires n < 16
  {
    "0123456789ABCDEF"[n]
  }

  /** Percent-encoding (section 2.1 of RFC 3986). */
  function Percent(bytes: seq<nat>): (s: string)
    requires forall i :: 0 <= i < |bytes| ==> bytes[i] < 256
    ensures |s| == 3 * |bytes|
  {
    if bytes == [] then "" else ['%', Hex(bytes[0] / 16), Hex(bytes[0] % 16)] + Percent(bytes[1..])
  }

  function EncodeChar(c: char): string {
    if Unreserved(c) then [c] else Percent(Utf8(c))
  }

  function EncodeURIComponent(s: string): string {
    if s == "" then "" else EncodeChar(s[0]) + EncodeURIComponent(s[1..])
  }

  function CounterKey(stream: string, group: string, messageId: string): string {
    "dlq:retry:" + EncodeURIComponent(stream) + ":" + EncodeURIComponent(group) + ":" + messageId
  }

  predicate NoColon(s: string) {
    ':' !in s
  }

  lemma {:induction false} PercentHasNoColon(bytes: seq<nat>)
    requires forall i :: 0 <= i < |bytes| ==> bytes[i] < 256
    ensures NoColon(Percent(bytes))
  {
    if bytes != [] { PercentHasNoColon(bytes[1..]); }
  }

  /** Encoding leaves no `:`, so the separators of a counter key can be told from its parts. */
  lemma {:induction false} EncodedHasNoColon(s: string)
    ensures NoColon(EncodeURIComponent(s))
  {
    if s != "" {
      if !Unreserved(s[0]) { PercentHasNoColon(Utf8(s[0])); }
      EncodedHasNoColon(s[1..]);
    }
  }

  lemma HexInjective(m: nat, n: nat)
    requires m < 16 && n < 16 && Hex(m) == Hex(n)
    ensures m == n
  {
  }

  lemma OctetInjective(m: nat, n: nat)
    requires m < 256 && n < 256 && Hex(m / 16) == Hex(n / 16) && Hex(m % 16) == Hex(n % 16)
    ensures m == n
  {
    HexInjective(m / 16, n / 16);
    HexInjective(m % 16, n % 16);
  }

  lemma PercentHead(bytes: seq<nat>, x: string)
    requires bytes != [] && forall i :: 0 <= i < |bytes| ==> bytes[i] < 256
    ensures
      var s := Percent(bytes) + x;
      |s| >= 3 && s[1] == Hex(bytes[0] / 16) && s[2] == Hex(bytes[0] % 16) && s[3..] == Percent(bytes[1..]) + x
  {
    var head, tail := ['%', Hex(bytes[0] / 16), Hex(bytes[0] % 16)], Percent(bytes[1..]);
    assert Percent(bytes) == head + tail;
    HeadAndTail(head[0], head[1], head[2], tail, x);
    hide Percent, Hex;
  }

  lemma HeadAndTail(a: char, b: char, c: char, tail: string, x: string)
    ensures var s := [a, b, c] + tail + x; |s| >= 3 && s[1] == b && s[2] == c && s[3..] == tail + x
  {
  }

  /** Two encodings that start alike encode the same octets, as far as the shorter goes. */
  lemma {:induction false} PercentPrefix(a: seq<nat>, b: seq<nat>, x: string, y: string)
    requires forall i :: 0 <= i < |a| ==> a[i] < 256
    requires forall i :: 0 <= i < |b| ==> b[i] < 256
    requires Percent(a) + x == Percent(b) + y && |a| <= |b|
    ensures a == b[..|a|]
  {
    if a != [] {
      PercentHead(a, x);
      PercentHead(b, y);
      hide Percent, Hex;
      OctetInjective(a[0], b[0]);
      PercentPrefix(a[1..], b[1..], x, y);
      assert b[..|a|] == [b[0]] + b[1..][..|a| - 1];
    }
  }

  /** UTF-8 is a prefix code: the first octet tells how many there are. */
  lemma Utf8Prefix(c: char, d: char)
    requires |Utf8(c)| <= |Utf8(d)| && Utf8(c) == Utf8(d)[..|Utf8(c)|]
    ensures c == d
  {
    var a, b := Utf8(c), Utf8(d);
    assert a[0] == b[0];
    Utf8Lead(c);
    Utf8Lead(d);
    assert a == b;
    Utf8Value(c);
    Utf8Value(d);
    assert c as int == d as int;
  }

  lemma Utf8Lead(c: char)
    ensures |Utf8(c)| == 1 <==> Utf8(c)[0] < 0x80
    ensures |Utf8(c)| == 2 <==> 0x80 <= Utf8(c)[0] < 0xE0
    ensures |Utf8(c)| == 3 <==> 0xE0 <= Utf8(c)[0] < 0xF0
  {
  }

  function Decoded(b: seq<int>): int
    requires 1 <= |b| <= 4
  {
    if |b| == 1 then b[0]
    else if |b| == 2 then (b[0] - 0xC0) * 64 + (b[1] - 0x80)
    else if |b| == 3 then (b[0] - 0xE0) * 4096 + (b[1] - 0x80) * 64 + (b[2] - 0x80)
    else (b[0] - 0xF0) * 262144 + (b[1] - 0x80) * 4096 + (b[2] - 0x80) * 64 + (b[3] - 0x80)
  }

  lemma Utf8Value(c: char)
    ensures Decoded(Utf8(c)) == c as int
  {
    var n := c as int;
    assert n / 64 / 64 == n / 4096 && n / 4096 / 64 == n / 262144;
  }

  lemma EncodeCharPrefix(c: char, d: char, x: string, y: string)
    requires EncodeChar(c) + x == EncodeChar(d) + y
    ensures c == d && x == y
  {
    assert (EncodeChar(c) + x)[0] == (EncodeChar(d) + y)[0];
    if Unreserved(c) || Unreserved(d) {
      assert c == d;
    } else {
      if |Utf8(c)| <= |Utf8(d)| {
        PercentPrefix(Utf8(c), Utf8(d), x, y);
        Utf8Prefix(c, d);
      } else {
        PercentPrefix(Utf8(d), Utf8(c), y, x);
        Utf8Prefix(d, c);
      }
    }
    assert x == (EncodeChar(c) + x)[|EncodeChar(c)|..];
    assert y == (EncodeChar(d) + y)[|EncodeChar(d)|..];
  }

  lemma EncodedIsEmpty(s: string)
    ensures EncodeURIComponent(s) == "" <==> s == ""
  {
    if s != "" { assert |EncodeChar(s[0])| >= 1; }
  }

  lemma {:induction false} EncodeInjective(s: string, t: string)
    requires EncodeURIComponent(s) == EncodeURIComponent(t)
    ensures s == t
  {
    EncodedIsEmpty(s);
    EncodedIsEmpty(t);
    if s != "" {
      EncodeCharPrefix(s[0], t[0], EncodeURIComponent(s[1..]), EncodeURIComponent(t[1..]));
      EncodeInjective(s[1..], t[1..]);
    }
  }

  lemma ColonAt(a: string, x: string)
    requires NoColon(a)
    ensures (a + ":" + x)[|a|] == ':'
    ensures forall i :: 0 <= i < |a| ==> (a + ":" + x)[i] != ':'
    ensures (a + ":" + x)[..|a|] == a && (a + ":" + x)[|a| + 1..] == x
  {
  }

  /** The first separator is found wherever the rest of the key goes. */
  lemma SplitAtColon(a: string, b: string, x: string, y: string)
    requires NoColon(a) && NoColon(b) && a + ":" + x == b + ":" + y
    ensures a == b && x == y
  {
    ColonAt(a, x);
    ColonAt(b, y);
  }

  function KeyTail(stream: string, group: string, id: string): string {
    EncodeURIComponent(stream) + ":" + (EncodeURIComponent(group) + ":" + id)
  }

  lemma KeyIsPrefixed(stream: string, group: string, id: string)
    ensures CounterKey(stream, group, id) == "dlq:retry:" + KeyTail(stream, group, id)
  {
  }

  lemma AfterPrefix(p: string, x: string, y: string)
    requires p + x == p + y
    ensures x == y
  {
    assert x == (p + x)[|p|..] && y == (p + y)[|p|..];
  }

  /** A counter key determines its stream, group and message: no group can advance another's count. */
  lemma CounterKeyInjective(stream: string, group: string, id: string, stream': string, group': string, id': string)
    requires CounterKey(stream, group, id) == CounterKey(stream', group', id')
    ensures stream == stream' && group == group' && id == id'
  {
    hide EncodeURIComponent, CounterKey;
    EncodedHasNoColon(stream);
    EncodedHasNoColon(stream');
    EncodedHasNoColon(group);
    EncodedHasNoColon(group');
    KeyIsPrefixed(stream, group, id);
    KeyIsPrefixed(stream', group', id');
    AfterPrefix("dlq:retry:", KeyTail(stream, group, id), KeyTail(stream', group', id'));
    SplitAtColon(
      EncodeURIComponent(stream), EncodeURIComponent(stream'),
      EncodeURIComponent(group) + ":" + id, EncodeURIComponent(group') + ":" + id');
    SplitAtColon(EncodeURIComponent(group), EncodeURIComponent(group'), id, id');
    EncodeInjective(stream, stream');
    EncodeInjective(group, group');
  }
}
