/**
  Base64url without padding (sections 3.2 and 5 of RFC 4648): three bytes become four
  symbols, and a last group of one or two bytes becomes two or three.
 */
module Base64Url {

  import opened Basics
  import opened Bytes

  type Sextet = x: int | 0 <= x < 64

  function Symbol(d: Sextet): char {
    if d < 26 then ('A' as int + d) as char
    else if d < 52 then ('a' as int + d - 26) as char
    else if d < 62 then ('0' as int + d - 52) as char
    else if d == 62 then '-' else '_'
  }

  function Value(c: char): Option<Sextet> {
    if 'A' <= c <= 'Z' then Some(c as int - 'A' as int)
    else if 'a' <= c <= 'z' then Some(c as int - 'a' as int + 26)
    else if '0' <= c <= '9' then Some(c as int - '0' as int + 52)
    else if c == '-' then Some(62)
    else if c == '_' then Some(63)
    else None
  }

  /** The alphabet of section 5 of RFC 4648: capitals, small letters, digits, hyphen and
      underscore, in their order. */
  lemma AlphabetInOrder(d: Sextet)
    ensures Symbol(0) == 'A' && Symbol(25) == 'Z' && Symbol(26) == 'a' && Symbol(51) == 'z'
    ensures Symbol(52) == '0' && Symbol(61) == '9' && Symbol(62) == '-' && Symbol(63) == '_'
    ensures d < 61 && d != 25 && d != 51 ==> Symbol(d + 1) as int == Symbol(d) as int + 1
  {
  }

  /** The sextets of a byte string. */
  function Split(bytes: seq<Byte>): seq<Sextet> {
    if bytes == [] then []
    else if |bytes| == 1 then [bytes[0] / 4, bytes[0] % 4 * 16]
    else if |bytes| == 2 then [bytes[0] / 4, bytes[0] % 4 * 16 + bytes[1] / 16, bytes[1] % 16 * 4]
    else
      [bytes[0] / 4, bytes[0] % 4 * 16 + bytes[1] / 16, bytes[1] % 16 * 4 + bytes[2] / 64, bytes[2] % 64]
      + Split(bytes[3..])
  }

  function Write(d: seq<Sextet>): string {
    seq(|d|, i requires 0 <= i < |d| => Symbol(d[i]))
  }

  function Encode(bytes: seq<Byte>): string {
    Write(Split(bytes))
  }

  function Values(text: string): Option<seq<Sextet>> {
    if text == [] then Some([])
    else
      var d, rest := Value(text[0]), Values(text[1..]);
      if d.None? || rest.None? then None else Some([d.value] + rest.value)
  }

  function First(d: seq<int>): Byte
    requires |d| >= 2 && 0 <= d[0] < 64 && 0 <= d[1] < 64
  {
    d[0] * 4 + d[1] / 16
  }

  function Second(d: seq<int>): Byte
    requires |d| >= 3 && 0 <= d[1] < 64 && 0 <= d[2] < 64
  {
    d[1] % 16 * 16 + d[2] / 4
  }

  function Third(d: seq<int>): Byte
    requires |d| >= 4 && 0 <= d[2] < 64 && 0 <= d[3] < 64
  {
    d[2] % 4 * 64 + d[3]
  }

  function Gather(d: seq<Sextet>): Option<seq<Byte>> {
    if d == [] then Some([])
    else if |d| == 1 then None
    else if |d| == 2 then Some([First(d)])
    else if |d| == 3 then Some([First(d), Second(d)])
    else
      var rest := Gather(d[4..]);
      if rest.None? then None else Some([First(d), Second(d), Third(d)] + rest.value)
  }

  function Decode(text: string): Option<seq<Byte>> {
    var d := Values(text);
    if d.None? then None else Gather(d.value)
  }

  lemma SymbolRoundTrip(d: Sextet)
    ensures Value(Symbol(d)) == Some(d)
  {
  }

  lemma FirstOf(a: int, b: int)
    requires 0 <= a < 256 && 0 <= b < 256
    ensures a / 4 * 4 + (a % 4 * 16 + b / 16) / 16 == a
  {
  }

  lemma SecondOf(a: int, b: int, c: int)
    requires 0 <= a < 256 && 0 <= b < 256 && 0 <= c < 256
    ensures (a % 4 * 16 + b / 16) % 16 * 16 + (b % 16 * 4 + c / 64) / 4 == b
  {
  }

  lemma ThirdOf(b: int, c: int)
    requires 0 <= b < 256 && 0 <= c < 256
    ensures (b % 16 * 4 + c / 64) % 4 * 64 + c % 64 == c
  {
  }

  lemma GroupBack(bytes: seq<Byte>)
    requires |bytes| >= 3
    ensures var d := Split(bytes);
      && |d| >= 4 && d[4..] == Split(bytes[3..])
      && First(d) == bytes[0] && Second(d) == bytes[1] && Third(d) == bytes[2]
  {
    FirstOf(bytes[0], bytes[1]);
    SecondOf(bytes[0], bytes[1], bytes[2]);
    ThirdOf(bytes[1], bytes[2]);
  }

  lemma LoneByte(a: int)
    requires 0 <= a < 256
    ensures a / 4 * 4 + a % 4 * 16 / 16 == a
  {
  }

  lemma SecondOfTwo(a: int, b: int)
    requires 0 <= a < 256 && 0 <= b < 256
    ensures (a % 4 * 16 + b / 16) % 16 * 16 + b % 16 * 4 / 4 == b
  {
  }

  lemma OneBack(bytes: seq<Byte>)
    requires |bytes| == 1
    ensures |Split(bytes)| == 2 && First(Split(bytes)) == bytes[0]
  {
    LoneByte(bytes[0]);
  }

  lemma TwoBack(bytes: seq<Byte>)
    requires |bytes| == 2
    ensures var d := Split(bytes); |d| == 3 && First(d) == bytes[0] && Second(d) == bytes[1]
  {
    FirstOf(bytes[0], bytes[1]);
    SecondOfTwo(bytes[0], bytes[1]);
  }

  lemma {:induction false} GatherSplit(bytes: seq<Byte>)
    ensures Gather(Split(bytes)) == Some(bytes)
  {
    if |bytes| == 1 {
      OneBack(bytes);
      assert bytes == [bytes[0]];
    } else if |bytes| == 2 {
      TwoBack(bytes);
      assert bytes == [bytes[0], bytes[1]];
    } else if |bytes| >= 3 {
      GroupBack(bytes);
      GatherSplit(bytes[3..]);
      assert bytes == [bytes[0], bytes[1], bytes[2]] + bytes[3..];
    }
  }

  lemma {:induction false} ValuesWrite(d: seq<Sextet>)
    ensures Values(Write(d)) == Some(d)
  {
    if d != [] {
      ValuesWrite(d[1..]);
      SymbolRoundTrip(d[0]);
      assert d == [d[0]] + d[1..];
      assert Write(d)[1..] == Write(d[1..]);
    }
  }

  /** Decoding gives back every byte string. */
  lemma RoundTrip(bytes: seq<Byte>)
    ensures Decode(Encode(bytes)) == Some(bytes)
  {
    ValuesWrite(Split(bytes));
    GatherSplit(bytes);
  }

  lemma Digit(high: int, low: int)
    requires 0 <= low < 64
    ensures (64 * high + low) / 64 == high && (64 * high + low) % 64 == low
  {
  }

  lemma Shift(high: int, low: int)
    requires 0 <= low < 4096
    ensures (4096 * high + low) / 4096 == high
  {
  }

  lemma Top(high: int, low: int)
    requires 0 <= low < 262144
    ensures (262144 * high + low) / 262144 == high
  {
  }

  lemma HighSextets(a: int, b: int, c: int)
    requires 0 <= a < 256 && 0 <= b < 256 && 0 <= c < 256
    ensures var n := 65536 * a + 256 * b + c;
      n / 262144 == a / 4 && n / 4096 % 64 == a % 4 * 16 + b / 16
  {
    Top(a / 4, 65536 * (a % 4) + 256 * b + c);
    Shift(16 * a + b / 16, 256 * (b % 16) + c);
    Digit(a / 4, a % 4 * 16 + b / 16);
  }

  lemma LowSextets(a: int, b: int, c: int)
    requires 0 <= a < 256 && 0 <= b < 256 && 0 <= c < 256
    ensures var n := 65536 * a + 256 * b + c;
      n / 64 % 64 == b % 16 * 4 + c / 64 && n % 64 == c % 64
  {
    Digit(1024 * a + 4 * b + c / 64, c % 64);
    Digit(16 * a + b / 16, b % 16 * 4 + c / 64);
  }

  /** Three bytes are one number of 24 bits, written in four digits of base 64, highest
      first. */
  lemma GroupIsANumber(a: Byte, b: Byte, c: Byte)
    ensures var n := 65536 * a as int + 256 * b as int + c as int;
      Split([a, b, c]) == [n / 262144, n / 4096 % 64, n / 64 % 64, n % 64]
  {
    HighSextets(a, b, c);
    LowSextets(a, b, c);
    assert [a, b, c][3..] == [];
  }

  /** A short last group is filled up with zero bits and cut. */
  lemma LastGroup(a: Byte, b: Byte)
    ensures Split([a, b]) == Split([a, b, 0])[..3]
    ensures Split([a]) == Split([a, 0, 0])[..2]
  {
  }

  /** The alphabet leaves out what the keys use as punctuation. */
  lemma NoPunctuation(bytes: seq<Byte>)
    ensures '{' !in Encode(bytes) && '}' !in Encode(bytes) && ':' !in Encode(bytes)
    ensures bytes != [] <==> Encode(bytes) != []
  {
    var d := Split(bytes);
    forall i | 0 <= i < |d| ensures Write(d)[i] != '{' && Write(d)[i] != '}' && Write(d)[i] != ':' {
      SymbolRoundTrip(d[i]);
    }
  }
}

/** The store keys of the locator, and which of them the store keeps together. */
module Keys {

  import opened Base64Url
  import opened Basics
  import opened Bytes

  const NUL: Byte := 0
  const GATE_PREFIX := "locate:gate:"
  const NODE_PREFIX := "locate:node:"
  const NODE_EPOCH_PREFIX := "locate:node:epoch:"
  const MAX_SERVICE_NAME := 128

  predicate ServiceChar(c: Byte) {
    || 'a' as int <= c <= 'z' as int
    || 'A' as int <= c <= 'Z' as int
    || '0' as int <= c <= '9' as int
    || c == '.' as int || c == '_' as int || c == '-' as int
  }

  predicate IsServiceName(name: seq<Byte>) {
    0 < |name| <= MAX_SERVICE_NAME && forall c :: c in name ==> ServiceChar(c)
  }

  /** The characters of a service name: letters, digits, dot, underscore and hyphen. */
  lemma ServiceCharsExactly(c: Byte)
    ensures ServiceChar(c) <==> 97 <= c <= 122 || 65 <= c <= 90 || 48 <= c <= 57 || c == 46 || c == 95 || c == 45
  {
  }

  method ValidServiceName(name: seq<Byte>) returns (ok: bool)
    ensures ok <==> IsServiceName(name)
    ensures ok ==> NUL !in name
  {
    if |name| == 0 || |name| > MAX_SERVICE_NAME {
      return false;
    }
    for i := 0 to |name|
      invariant forall c :: c in name[..i] ==> ServiceChar(c)
    {
      if !ServiceChar(name[i]) {
        return false;
      }
      assert name[..i + 1] == name[..i] + [name[i]];
    }
    assert name[..|name|] == name;
    ok := true;
  }

  function GateKey(service: seq<Byte>, uid: seq<Byte>): string {
    GATE_PREFIX + "{" + Encode(service + [NUL] + uid) + "}"
  }

  function NodeLocationKey(prefix: string, service: seq<Byte>, id: seq<Byte>): string {
    prefix + "{" + Encode(service) + "}:" + Encode(id)
  }

  function NodeKey(service: seq<Byte>, uid: seq<Byte>): string {
    NodeLocationKey(NODE_PREFIX, service, uid)
  }

  function NodeEpochKey(service: seq<Byte>, nodeId: seq<Byte>): string {
    NodeLocationKey(NODE_EPOCH_PREFIX, service, nodeId)
  }

  // Reading keys back.

  /** Where the value first occurs, or the length when it does not. */
  function Find<T(==)>(s: seq<T>, x: T): (i: nat)
    ensures i <= |s| && x !in s[..i]
    ensures i < |s| <==> x in s
    ensures i < |s| ==> s[i] == x
  {
    if s == [] || s[0] == x then 0
    else
      var i := 1 + Find(s[1..], x);
      assert s[..i] == [s[0]] + s[1..][..i - 1];
      i
  }

  lemma {:induction false} FindAfter<T>(a: seq<T>, x: T, b: seq<T>)
    requires x !in a
    ensures Find(a + [x] + b, x) == |a|
  {
    if a != [] {
      assert (a + [x] + b)[1..] == a[1..] + [x] + b;
      FindAfter(a[1..], x, b);
    }
  }

  /** What the store hashes: the text between the first opening brace and the next closing
      one if there is any such text, and otherwise the whole key. */
  function HashTag(key: string): string {
    var open := Find(key, '{');
    if open == |key| then key
    else
      var inner := key[open + 1..];
      var close := Find(inner, '}');
      if close == |inner| || close == 0 then key else inner[..close]
  }

  function ReadTag(key: string, prefix: string): Option<string> {
    if |key| <= |prefix| || key[..|prefix|] != prefix || key[|prefix|] != '{' then None
    else
      var inner := key[|prefix| + 1..];
      Some(inner[..Find(inner, '}')])
  }

  function ReadGateKey(key: string): Option<(seq<Byte>, seq<Byte>)> {
    var tag := ReadTag(key, GATE_PREFIX);
    if tag.None? then None
    else
      var bytes := Decode(tag.value);
      if bytes.None? || NUL !in bytes.value then None
      else
        var i := Find(bytes.value, NUL);
        Some((bytes.value[..i], bytes.value[i + 1..]))
  }

  function ReadNodeLocationKey(key: string, prefix: string): Option<(seq<Byte>, seq<Byte>)> {
    var tag := ReadTag(key, prefix);
    if tag.None? || |prefix| + |tag.value| + 3 > |key| then None
    else
      var service := Decode(tag.value);
      var id := Decode(key[|prefix| + |tag.value| + 3..]);
      if service.None? || id.None? then None else Some((service.value, id.value))
  }

  lemma InnerOf(prefix: string, tag: string, rest: string)
    requires '}' !in tag
    ensures var inner := (prefix + "{" + tag + "}" + rest)[|prefix| + 1..];
      Find(inner, '}') == |tag| && inner[..|tag|] == tag && |inner| > |tag|
  {
    assert (prefix + "{" + tag + "}" + rest)[|prefix| + 1..] == tag + ['}'] + rest;
    FindAfter(tag, '}', rest);
  }

  lemma TagOf(prefix: string, tag: string, rest: string)
    requires '}' !in tag
    ensures ReadTag(prefix + "{" + tag + "}" + rest, prefix) == Some(tag)
  {
    var key := prefix + "{" + tag + "}" + rest;
    assert key[..|prefix|] == prefix;
    InnerOf(prefix, tag, rest);
  }

  lemma HashTagOf(prefix: string, tag: string, rest: string)
    requires '}' !in tag && '{' !in prefix
    ensures var key := prefix + "{" + tag + "}" + rest;
      HashTag(key) == if tag == [] then key else tag
  {
    var key := prefix + "{" + tag + "}" + rest;
    InnerOf(prefix, tag, rest);
    assert key == prefix + ['{'] + (tag + "}" + rest);
    FindAfter(prefix, '{', tag + "}" + rest);
  }

  /** A Gate key tells its service and uid, whatever the uid, if the service name has no
      NUL byte; valid service names have none. */
  lemma GateKeyRoundTrip(service: seq<Byte>, uid: seq<Byte>)
    requires NUL !in service
    ensures ReadGateKey(GateKey(service, uid)) == Some((service, uid))
  {
    var bytes := service + [NUL] + uid;
    RoundTrip(bytes);
    NoPunctuation(bytes);
    TagOf(GATE_PREFIX, Encode(bytes), "");
    assert GateKey(service, uid) == GATE_PREFIX + "{" + Encode(bytes) + "}" + "";
    FindAfter(service, NUL, uid);
    assert NUL == bytes[|service|];
    assert bytes[..|service|] == service && bytes[|service| + 1..] == uid;
  }

  /** A NUL in the service name is exactly what lets a shorter service name with a longer
      uid have the same key. */
  lemma GateKeyCollision(service: seq<Byte>, uid: seq<Byte>)
    ensures NUL in service <==>
              exists s, u :: NUL !in s && (s, u) != (service, uid) && GateKey(s, u) == GateKey(service, uid)
  {
    if NUL in service {
      var i := Find(service, NUL);
      var s, u := service[..i], service[i + 1..] + [NUL] + uid;
      assert s + [NUL] + u == service + [NUL] + uid;
      assert NUL !in s && (s, u) != (service, uid) && GateKey(s, u) == GateKey(service, uid);
    } else {
      GateKeyRoundTrip(service, uid);
      forall s, u | NUL !in s && GateKey(s, u) == GateKey(service, uid) ensures (s, u) == (service, uid) {
        GateKeyRoundTrip(s, u);
      }
    }
  }

  lemma NodeLocationKeyRoundTrip(prefix: string, service: seq<Byte>, id: seq<Byte>)
    ensures ReadNodeLocationKey(NodeLocationKey(prefix, service, id), prefix) == Some((service, id))
  {
    var key := NodeLocationKey(prefix, service, id);
    var tag := Encode(service);
    RoundTrip(service);
    RoundTrip(id);
    NoPunctuation(service);
    assert key == prefix + "{" + tag + "}" + (":" + Encode(id));
    TagOf(prefix, tag, ":" + Encode(id));
    assert key[|prefix| + |tag| + 3..] == Encode(id);
  }

  /** The keys are written as the store knows them. */
  lemma KeysAreWritten(service: seq<Byte>, id: seq<Byte>)
    ensures GateKey(service, id) == "locate:gate:{" + Encode(service + [NUL] + id) + "}"
    ensures NodeKey(service, id) == "locate:node:{" + Encode(service) + "}:" + Encode(id)
    ensures NodeEpochKey(service, id) == "locate:node:epoch:{" + Encode(service) + "}:" + Encode(id)
  {
  }

  /** For all valid service names and all ids, each kind of key is injective in both. */
  lemma KeysAreInjective(s1: seq<Byte>, id1: seq<Byte>, s2: seq<Byte>, id2: seq<Byte>)
    requires IsServiceName(s1) && IsServiceName(s2)
    ensures GateKey(s1, id1) == GateKey(s2, id2) <==> s1 == s2 && id1 == id2
    ensures NodeKey(s1, id1) == NodeKey(s2, id2) <==> s1 == s2 && id1 == id2
    ensures NodeEpochKey(s1, id1) == NodeEpochKey(s2, id2) <==> s1 == s2 && id1 == id2
  {
    GateKeyRoundTrip(s1, id1);
    GateKeyRoundTrip(s2, id2);
    NodeLocationKeyRoundTrip(NODE_PREFIX, s1, id1);
    NodeLocationKeyRoundTrip(NODE_PREFIX, s2, id2);
    NodeLocationKeyRoundTrip(NODE_EPOCH_PREFIX, s1, id1);
    NodeLocationKeyRoundTrip(NODE_EPOCH_PREFIX, s2, id2);
  }

  /** No key of one kind is a key of another. */
  lemma FamiliesAreDisjoint(s1: seq<Byte>, id1: seq<Byte>, s2: seq<Byte>, id2: seq<Byte>)
    ensures GateKey(s1, id1) != NodeKey(s2, id2)
    ensures GateKey(s1, id1) != NodeEpochKey(s2, id2)
    ensures NodeKey(s1, id1) != NodeEpochKey(s2, id2)
  {
    assert GateKey(s1, id1)[7] == 'g';
    assert NodeKey(s2, id2)[7] == 'n' && NodeEpochKey(s2, id2)[7] == 'n';
    assert NodeKey(s1, id1)[12] == '{' && NodeEpochKey(s2, id2)[12] == 'e';
  }

  lemma NodeTag(prefix: string, service: seq<Byte>, id: seq<Byte>)
    requires '{' !in prefix
    ensures var key := NodeLocationKey(prefix, service, id);
      HashTag(key) == if service == [] then key else Encode(service)
  {
    NoPunctuation(service);
    assert NodeLocationKey(prefix, service, id) == prefix + "{" + Encode(service) + "}" + (":" + Encode(id));
    HashTagOf(prefix, Encode(service), ":" + Encode(id));
  }

  /** The two keys of every node script have the same hash tag exactly when the service
      name is not empty, and then the tag belongs to that service alone. */
  lemma ScriptKeysShareTag(service: seq<Byte>, uid: seq<Byte>, nodeId: seq<Byte>)
    ensures HashTag(NodeKey(service, uid)) == HashTag(NodeEpochKey(service, nodeId)) <==> service != []
    ensures service != [] ==> Decode(HashTag(NodeKey(service, uid))) == Some(service)
  {
    NodeTag(NODE_PREFIX, service, uid);
    NodeTag(NODE_EPOCH_PREFIX, service, nodeId);
    FamiliesAreDisjoint(service, uid, service, nodeId);
    RoundTrip(service);
  }
}
