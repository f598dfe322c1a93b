/** The base64 codec of net-voip/freeswitch/files/mod_audio_fork/base64.hpp.
    Characters and bytes are both 8-bit vectors, as in the source. */
module Base64 {

  import opened Common

  const PAD: byte := 61  // '='

  /** is_base64: the characters of the alphabet by their code ranges. */
  predicate IsBase64(c: byte)
  {
    c == 43 || (47 <= c <= 57) || (65 <= c <= 90) || (97 <= c <= 122)
  }

  /** Character `i` of the alphabet A-Z a-z 0-9 + /. */
  function Char(i: byte): byte
  {
    if i < 26 then 65 + i
    else if i < 52 then 97 + (i - 26)
    else if i < 62 then 48 + (i - 52)
    else if i == 62 then 43
    else 47
  }

  /** base64_chars.find, cut down to a byte: the position of the character, or
      255 when it is not in the alphabet. */
  function Find(c: byte): byte
  {
    if 65 <= c <= 90 then c - 65
    else if 97 <= c <= 122 then c - 97 + 26
    else if 48 <= c <= 57 then c - 48 + 52
    else if c == 43 then 62
    else if c == 47 then 63
    else 255
  }

  const UPPER: string := "ABCDEFGHIJKLMNOPQRSTUVWXYZ"
  const LOWER: string := "abcdefghijklmnopqrstuvwxyz"
  const REST: string := "0123456789+/"

  /** base64_chars. */
  const ALPHABET: string := UPPER + LOWER + REST

  /** Char is the lookup in the literal alphabet. */
  lemma CharIsLookup(i: byte)
    requires i < 64
    ensures |ALPHABET| == 64 && ALPHABET[i as int] as int == Char(i) as int
  {
    var k := i as int;
    if k < 26 {
      assert ALPHABET[k] == UPPER[k];
    } else if k < 52 {
      assert ALPHABET[k] == LOWER[k - 26];
    } else {
      assert ALPHABET[k] == REST[k - 52];
    }
  }

  /** Looking a character of the alphabet up gives its position back. */
  lemma FindInvertsChar(i: byte)
    requires i < 64
    ensures IsBase64(Char(i)) && Char(i) != PAD && Find(Char(i)) == i
  {
  }

  /** is_base64 accepts exactly the characters that can be found. */
  lemma CharInvertsFind(c: byte)
    ensures IsBase64(c) <==> Find(c) < 64
    ensures IsBase64(c) ==> Char(Find(c)) == c
    ensures !IsBase64(c) ==> Find(c) == 255
  {
  }

  // ------------------------------------------------------------------------
  // The mask-and-shift expressions, and section 4 of RFC 4648

  function Sextets(a: byte, b: byte, c: byte): seq<byte>
  {
    [(a & 0xfc) >> 2,
     ((a & 0x03) << 4) + ((b & 0xf0) >> 4),
     ((b & 0x0f) << 2) + ((c & 0xc0) >> 6),
     c & 0x3f]
  }

  function Octets(w: byte, x: byte, y: byte, z: byte): seq<byte>
  {
    [(w << 2) + ((x & 0x30) >> 4),
     ((x & 0xf) << 4) + ((y & 0x3c) >> 2),
     ((y & 0x3) << 6) + z]
  }

  /** Three bytes as one 24-bit input group. */
  function Group(a: byte, b: byte, c: byte): bv24
  {
    ((a as bv24) << 16) | ((b as bv24) << 8) | (c as bv24)
  }

  /** Four 6-bit values as one 24-bit group. */
  function Quad(w: byte, x: byte, y: byte, z: byte): bv24
  {
    ((w as bv24) << 18) | ((x as bv24) << 12) | ((y as bv24) << 6) | (z as bv24)
  }

  /** The encoder's expressions are the four 6-bit groups of the input group. */
  lemma SextetsAreTheGroups(a: byte, b: byte, c: byte)
    ensures var g, s := Group(a, b, c), Sextets(a, b, c);
      && s[0] as bv24 == g >> 18 && s[1] as bv24 == (g >> 12) & 63
      && s[2] as bv24 == (g >> 6) & 63 && s[3] as bv24 == g & 63
  {
  }

  /** The decoder's expressions are the three bytes of the 24-bit group. */
  lemma OctetsAreTheBytes(w: byte, x: byte, y: byte, z: byte)
    requires w < 64 && x < 64 && y < 64 && z < 64
    ensures var g, o := Quad(w, x, y, z), Octets(w, x, y, z);
      o[0] as bv24 == g >> 16 && o[1] as bv24 == (g >> 8) & 255 && o[2] as bv24 == g & 255
  {
  }

  lemma SextetsAreSmall(a: byte, b: byte, c: byte)
    ensures var s := Sextets(a, b, c); s[0] < 64 && s[1] < 64 && s[2] < 64 && s[3] < 64
  {
  }

  /** Joining the sextets of three bytes gives these bytes back. */
  lemma OctetsInvertSextets(a: byte, b: byte, c: byte)
    ensures var s := Sextets(a, b, c); Octets(s[0], s[1], s[2], s[3]) == [a, b, c]
  {
  }

  // ------------------------------------------------------------------------
  // Meaning of the two directions

  function Chars(s: seq<byte>): seq<byte>
    ensures |Chars(s)| == |s|
  {
    if s == [] then [] else Chars(s[..|s| - 1]) + [Char(s[|s| - 1])]
  }

  function Pads(n: nat): seq<byte>
    ensures |Pads(n)| == n
  {
    if n == 0 then [] else Pads(n - 1) + [PAD]
  }

  /** Full groups become four characters; a final group of one or two bytes is
      filled up with zero bits and padded. */
  function Encoded(b: seq<byte>): seq<byte>
  {
    if |b| >= 3 then Chars(Sextets(b[0], b[1], b[2])) + Encoded(b[3..])
    else if |b| == 2 then Chars(Sextets(b[0], b[1], 0)[..3]) + Pads(1)
    else if |b| == 1 then Chars(Sextets(b[0], 0, 0)[..2]) + Pads(2)
    else []
  }

  /** Length of the longest prefix made of alphabet characters. */
  function PrefixLen(s: seq<byte>): nat
    ensures PrefixLen(s) <= |s|
  {
    if s == [] || !IsBase64(s[0]) then 0 else 1 + PrefixLen(s[1..])
  }

  /** The bytes a string of alphabet characters stands for; the leftover bits of
      a short final group are dropped. */
  function Unpacked(t: seq<byte>): seq<byte>
  {
    if |t| >= 4 then Octets(Find(t[0]), Find(t[1]), Find(t[2]), Find(t[3])) + Unpacked(t[4..])
    else if |t| == 3 then Octets(Find(t[0]), Find(t[1]), Find(t[2]), 0)[..2]
    else if |t| == 2 then Octets(Find(t[0]), Find(t[1]), 0, 0)[..1]
    else []
  }

  /** What decoding means: only the longest alphabet prefix counts. */
  function Decoded(s: seq<byte>): seq<byte>
  {
    Unpacked(s[..PrefixLen(s)])
  }

  // ------------------------------------------------------------------------
  // base64_encode

  /** The four mask assignments of the encoder. */
  method FillFour(c3: array<byte>, c4: array<byte>)
    requires c3.Length == 3 && c4.Length == 4 && c3 != c4
    modifies c4
    ensures c4[..] == Sextets(c3[0], c3[1], c3[2])
  {
    var s := Sextets(c3[0], c3[1], c3[2]);
    c4[0], c4[1], c4[2], c4[3] := s[0], s[1], s[2], s[3];
  }

  /** The loops that append the characters of the first `n` sextets. */
  method AppendChars(ret: seq<byte>, c4: array<byte>, n: nat) returns (longer: seq<byte>)
    requires n <= c4.Length
    ensures longer == ret + Chars(c4[..n])
  {
    longer := ret;
    var i := 0;
    while i < n
      invariant 0 <= i <= n
      invariant longer == ret + Chars(c4[..i])
    {
      longer := longer + [Char(c4[i])];
      assert c4[..i + 1][..i] == c4[..i];
      i := i + 1;
    }
  }

  lemma FullGroupEncoded(before: seq<byte>, rest: seq<byte>, sextets: seq<byte>)
    requires |rest| >= 3 && sextets == Sextets(rest[0], rest[1], rest[2])
    ensures (before + Chars(sextets)) + Encoded(rest[3..]) == before + Encoded(rest)
  {
  }

  lemma ShortGroupEncoded(tail: seq<byte>, sextets: seq<byte>)
    requires 1 <= |tail| <= 2 && sextets == Sextets(tail[0], if |tail| == 2 then tail[1] else 0, 0)
    ensures Encoded(tail) == Chars(sextets[..|tail| + 1]) + Pads(3 - |tail|)
  {
  }

  /** The block after the encoder's loop: a last group of `n` bytes. */
  method EncodeTail(c3: array<byte>, c4: array<byte>, n: nat, before: seq<byte>) returns (ret: seq<byte>)
    requires c3.Length == 3 && c4.Length == 4 && c3 != c4 && 1 <= n <= 2
    modifies c3, c4
    ensures ret == before + Encoded(old(c3[..n]))
  {
    ghost var tail := c3[..n];
    var j := n;
    while j < 3
      invariant n <= j <= 3
      invariant forall k :: 0 <= k < n ==> c3[k] == tail[k]
      invariant forall k :: n <= k < j ==> c3[k] == 0
    {
      c3[j] := 0;
      j := j + 1;
    }
    FillFour(c3, c4);
    ShortGroupEncoded(tail, c4[..]);
    assert c4[..n + 1] == c4[..][..n + 1];
    ret := AppendChars(before, c4, n + 1);
    ret := AppendPads(ret, n);
  }

  method AppendPads(ret: seq<byte>, n: nat) returns (longer: seq<byte>)
    requires n <= 3
    ensures longer == ret + Pads(3 - n)
  {
    longer := ret;
    var i := n;
    while i < 3
      invariant n <= i <= 3
      invariant longer == ret + Pads(i - n)
    {
      longer := longer + [PAD];
      i := i + 1;
    }
  }

  /** The encoder's loop body for a full group; `rest` is the input from that group on. */
  method EncodeGroup(c3: array<byte>, c4: array<byte>, before: seq<byte>, ghost rest: seq<byte>)
    returns (ret: seq<byte>)
    requires c3.Length == 3 && c4.Length == 4 && c3 != c4
    requires |rest| >= 3 && rest[0] == c3[0] && rest[1] == c3[1] && rest[2] == c3[2]
    modifies c4
    ensures ret + Encoded(rest[3..]) == before + Encoded(rest)
  {
    FillFour(c3, c4);
    ret := AppendChars(before, c4, 4);
    assert c4[..4] == c4[..];
    FullGroupEncoded(before, rest, c4[..]);
  }

  /** The first `i` elements of a group buffer are those of the current group. */
  predicate Collected(group: array<byte>, i: nat, rest: seq<byte>)
    reads group
  {
    i <= group.Length && i <= |rest| && forall k :: 0 <= k < i ==> group[k] == rest[k]
  }

  /** The encoder's loop body. */
  method EncodeByte(b: byte, c3: array<byte>, c4: array<byte>, i: nat, before: seq<byte>, ghost rest: seq<byte>)
      returns (ret: seq<byte>, next: nat, ghost left: seq<byte>)
    requires c3.Length == 3 && c4.Length == 4 && c3 != c4
    requires i < 3 && i < |rest| && rest[i] == b && Collected(c3, i, rest)
    modifies c3, c4
    ensures if i == 2 then next == 0 && left == rest[3..] else next == i + 1 && left == rest
    ensures Collected(c3, next, left) && ret + Encoded(left) == before + Encoded(rest)
  {
    c3[i] := b;
    if i == 2 {
      ret := EncodeGroup(c3, c4, before, rest);
      next, left := 0, rest[3..];
    } else {
      ret, next, left := before, i + 1, rest;
    }
  }

  lemma RestAt(input: seq<byte>, t: seq<byte>, rest: seq<byte>, at: nat, i: nat, n: nat)
    requires t <= input && i <= at < |t| && i < n && rest == t[at - i..]
    ensures i < |rest| && rest[i] == input[at] && (i == n - 1 ==> n <= |rest| && rest[n..] == t[at + 1..])
  {
  }

  /** The encoder's loop; it leaves the last `i` bytes of the input in `c3`. */
  method EncodeLoop(input: seq<byte>, c3: array<byte>, c4: array<byte>) returns (ret: seq<byte>, i: nat)
    requires c3.Length == 3 && c4.Length == 4 && c3 != c4
    modifies c3, c4
    ensures i < 3 && i <= |input| && c3[..i] == input[|input| - i..]
    ensures ret + Encoded(input[|input| - i..]) == Encoded(input)
  {
    ret, i := [], 0;
    var at := 0;
    ghost var rest := input;  // the input from the current group on
    while at < |input|
      invariant 0 <= i < 3 && i <= at <= |input|
      invariant rest == input[at - i..] && Collected(c3, i, rest)
      invariant ret + Encoded(rest) == Encoded(input)
    {
      RestAt(input, input, rest, at, i, 3);
      ret, i, rest := EncodeByte(input[at], c3, c4, i, ret, rest);
      at := at + 1;
    }
    assert c3[..i] == rest;
  }

  method Encode(input: seq<byte>) returns (ret: seq<byte>)
    ensures ret == Encoded(input)
  {
    var c3, c4 := new byte[3], new byte[4];
    var i;
    ret, i := EncodeLoop(input, c3, c4);
    if i > 0 {
      ret := EncodeTail(c3, c4, i, ret);
    }
  }

  // ------------------------------------------------------------------------
  // base64_decode

  /** Inside or at the end of the prefix, the next character decides which. */
  lemma {:induction false} PrefixIsLongest(s: seq<byte>, at: nat)
    requires at <= PrefixLen(s)
    ensures at < PrefixLen(s) <==> at < |s| && IsBase64(s[at])
  {
    if at > 0 {
      PrefixIsLongest(s[1..], at - 1);
    }
  }

  /** The three mask assignments of the decoder. */
  method FillThree(c4: array<byte>, c3: array<byte>)
    requires c3.Length == 3 && c4.Length == 4 && c3 != c4
    modifies c3
    ensures c3[..] == Octets(c4[0], c4[1], c4[2], c4[3])
  {
    var o := Octets(c4[0], c4[1], c4[2], c4[3]);
    c3[0], c3[1], c3[2] := o[0], o[1], o[2];
  }

  /** The loop that replaces characters by their positions in the alphabet. */
  method LookUp(c4: array<byte>)
    modifies c4
    ensures forall k :: 0 <= k < c4.Length ==> c4[k] == Find(old(c4[k]))
  {
    var i := 0;
    while i < c4.Length
      invariant 0 <= i <= c4.Length
      invariant forall k :: 0 <= k < c4.Length ==> c4[k] == if k < i then Find(old(c4[k])) else old(c4[k])
    {
      c4[i] := Find(c4[i]);
      i := i + 1;
    }
  }

  /** The loops that append the first `n` bytes; none when `n` is negative. */
  method AppendBytes(ret: seq<byte>, c3: array<byte>, n: int) returns (longer: seq<byte>)
    requires n <= c3.Length
    ensures longer == ret + if n > 0 then c3[..n] else []
  {
    longer := ret;
    var i := 0;
    while i < n
      invariant 0 <= i && (i <= n || i == 0)
      invariant longer == ret + c3[..i]
    {
      longer := longer + [c3[i]];
      i := i + 1;
    }
  }

  lemma FullGroupDecoded(before: seq<byte>, rest: seq<byte>, octets: seq<byte>)
    requires |rest| >= 4 && octets == Octets(Find(rest[0]), Find(rest[1]), Find(rest[2]), Find(rest[3]))
    ensures (before + octets) + Unpacked(rest[4..]) == before + Unpacked(rest)
  {
  }

  /** The 255 that stands for a missing position never reaches the output. */
  lemma ShortGroupDecoded(tail: seq<byte>, w: byte, x: byte, y: byte, z: byte)
    requires 1 <= |tail| <= 3 && w == Find(tail[0]) && z == 255
    requires x == if |tail| > 1 then Find(tail[1]) else 255
    requires y == if |tail| > 2 then Find(tail[2]) else 255
    ensures Unpacked(tail) == Octets(w, x, y, z)[..|tail| - 1]
  {
  }

  /** The decoder's loop body for a full group; `rest` is the text from that group on. */
  method DecodeGroup(c4: array<byte>, c3: array<byte>, before: seq<byte>, ghost rest: seq<byte>)
    returns (ret: seq<byte>)
    requires c3.Length == 3 && c4.Length == 4 && c3 != c4
    requires |rest| >= 4 && rest[0] == c4[0] && rest[1] == c4[1] && rest[2] == c4[2] && rest[3] == c4[3]
    modifies c3, c4
    ensures ret + Unpacked(rest[4..]) == before + Unpacked(rest)
  {
    LookUp(c4);
    FillThree(c4, c3);
    ret := AppendBytes(before, c3, 3);
    assert c3[..3] == c3[..];
    FullGroupDecoded(before, rest, c3[..]);
  }

  /** The block after the decoder's loop: a last group of `n` characters. */
  method DecodeTail(c4: array<byte>, c3: array<byte>, n: nat, before: seq<byte>) returns (ret: seq<byte>)
    requires c3.Length == 3 && c4.Length == 4 && c3 != c4 && 1 <= n <= 3
    modifies c3, c4
    ensures ret == before + Unpacked(old(c4[..n]))
  {
    ghost var tail := c4[..n];
    var j := n;
    while j < 4
      invariant n <= j <= 4
      invariant forall k :: 0 <= k < n ==> c4[k] == tail[k]
      invariant forall k :: n <= k < j ==> c4[k] == 0
    {
      c4[j] := 0;
      j := j + 1;
    }
    LookUp(c4);
    FillThree(c4, c3);
    ShortGroupDecoded(tail, c4[0], c4[1], c4[2], c4[3]);
    assert c3[..n - 1] == c3[..][..n - 1];
    ret := AppendBytes(before, c3, n - 1);
  }

  /** The decoder's loop body. */
  method DecodeChar(c: byte, c4: array<byte>, c3: array<byte>, i: nat, before: seq<byte>, ghost rest: seq<byte>)
      returns (ret: seq<byte>, next: nat, ghost left: seq<byte>)
    requires c3.Length == 3 && c4.Length == 4 && c3 != c4
    requires i < 4 && i < |rest| && rest[i] == c && Collected(c4, i, rest)
    modifies c3, c4
    ensures if i == 3 then next == 0 && left == rest[4..] else next == i + 1 && left == rest
    ensures Collected(c4, next, left) && ret + Unpacked(left) == before + Unpacked(rest)
  {
    c4[i] := c;
    if i == 3 {
      ret := DecodeGroup(c4, c3, before, rest);
      next, left := 0, rest[4..];
    } else {
      ret, next, left := before, i + 1, rest;
    }
  }

  /** The condition of the decoder's loop. */
  method HasChar(input: seq<byte>, at: nat, ghost t: seq<byte>) returns (more: bool)
    requires t == input[..PrefixLen(input)] && at <= |t|
    ensures more <==> at < |t|
  {
    PrefixIsLongest(input, at);
    more := at < |input| && input[at] != PAD && IsBase64(input[at]);
  }

  /** The decoder's loop; it leaves the last `i` characters of the alphabet prefix,
      `rest`, in `c4`. */
  method DecodeLoop(input: seq<byte>, c4: array<byte>, c3: array<byte>, ghost t: seq<byte>)
      returns (ret: seq<byte>, i: nat, ghost rest: seq<byte>)
    requires c3.Length == 3 && c4.Length == 4 && c3 != c4 && t == input[..PrefixLen(input)]
    modifies c3, c4
    ensures i < 4 && |rest| == i && Collected(c4, i, rest)
    ensures ret + Unpacked(rest) == Unpacked(t)
  {
    ret, i, rest := [], 0, t;
    var at := 0;
    ghost var from := 0;  // the current group begins there
    var more := HasChar(input, at, t);
    while more
      invariant i < 4 && at == from + i <= |t| && (more <==> at < |t|)
      invariant rest == t[from..] && Collected(c4, i, rest)
      invariant ret + Unpacked(rest) == Unpacked(t)
      decreases |t| - at
    {
      RestAt(input, t, rest, at, i, 4);
      from := if i == 3 then at + 1 else from;
      ret, i, rest := DecodeChar(input[at], c4, c3, i, ret, rest);
      at := at + 1;
      more := HasChar(input, at, t);
    }
  }

  method Decode(input: seq<byte>) returns (ret: seq<byte>)
    ensures ret == Decoded(input)
  {
    var c3, c4 := new byte[3], new byte[4];
    var i;
    ghost var rest;
    ret, i, rest := DecodeLoop(input, c4, c3, input[..PrefixLen(input)]);
    assert c4[..i] == rest;
    if i > 0 {
      ret := DecodeTail(c4, c3, i, ret);
    }
  }

  // ------------------------------------------------------------------------
  // Round trip and lengths

  /** The encoding of a full group is four alphabet characters. */
  lemma CharsOfGroup(a: byte, b: byte, c: byte)
    ensures var s, t := Sextets(a, b, c), Chars(Sextets(a, b, c));
      |t| == 4 && forall k :: 0 <= k < 4 ==> IsBase64(t[k]) && Find(t[k]) == s[k]
  {
    var s := Sextets(a, b, c);
    SextetsAreSmall(a, b, c);
    CharsAt(s, 0);
    CharsAt(s, 1);
    CharsAt(s, 2);
    CharsAt(s, 3);
    FindInvertsChar(s[0]);
    FindInvertsChar(s[1]);
    FindInvertsChar(s[2]);
    FindInvertsChar(s[3]);
  }

  lemma {:induction false} CharsAt(s: seq<byte>, k: nat)
    requires k < |s|
    ensures Chars(s)[k] == Char(s[k])
  {
    if k < |s| - 1 {
      CharsAt(s[..|s| - 1], k);
    }
  }

  lemma {:induction false} PrefixOfConcat(s: seq<byte>, t: seq<byte>)
    requires forall k :: 0 <= k < |s| ==> IsBase64(s[k])
    ensures PrefixLen(s + t) == |s| + PrefixLen(t)
  {
    if s != [] {
      PrefixOfConcat(s[1..], t);
      assert (s + t)[1..] == s[1..] + t;
    } else {
      assert s + t == t;
    }
  }

  /** Decoding peels off a full group of alphabet characters. */
  lemma DecodedGroup(head: seq<byte>, rest: seq<byte>)
    requires |head| == 4 && forall k :: 0 <= k < 4 ==> IsBase64(head[k])
    ensures Decoded(head + rest) == Octets(Find(head[0]), Find(head[1]), Find(head[2]), Find(head[3])) + Decoded(rest)
  {
    PrefixOfConcat(head, rest);
    var t := (head + rest)[..4 + PrefixLen(rest)];
    assert t[4..] == rest[..PrefixLen(rest)];
    assert t[0] == head[0] && t[1] == head[1] && t[2] == head[2] && t[3] == head[3];
  }

  /** Decoding stops at the padding. */
  lemma DecodedShort(head: seq<byte>, pads: seq<byte>)
    requires (forall k :: 0 <= k < |head| ==> IsBase64(head[k])) && pads != [] && pads[0] == PAD
    ensures Decoded(head + pads) == Unpacked(head)
  {
    PrefixOfConcat(head, pads);
    assert (head + pads)[..|head|] == head;
  }

  lemma HeadAndRest(b: seq<byte>)
    requires |b| >= 3
    ensures [b[0], b[1], b[2]] + b[3..] == b
  {
  }

  /** decode(encode(b)) == b for every byte sequence. */
  lemma {:induction false} RoundTrip(b: seq<byte>)
    ensures Decoded(Encoded(b)) == b
  {
    if |b| >= 3 {
      CharsOfGroup(b[0], b[1], b[2]);
      DecodedGroup(Chars(Sextets(b[0], b[1], b[2])), Encoded(b[3..]));
      OctetsInvertSextets(b[0], b[1], b[2]);
      RoundTrip(b[3..]);
      HeadAndRest(b);
    } else if |b| == 2 {
      ShortChars(b[0], b[1], 3);
      DecodedShort(Chars(Sextets(b[0], b[1], 0)[..3]), Pads(1));
      OctetsInvertSextets(b[0], b[1], 0);
    } else if |b| == 1 {
      ShortChars(b[0], 0, 2);
      DecodedShort(Chars(Sextets(b[0], 0, 0)[..2]), Pads(2));
      OctetsInvertSextets(b[0], 0, 0);
    }
  }

  /** The first characters of a group whose other sextets are zero. */
  lemma ShortChars(a: byte, b: byte, n: nat)
    requires n == 3 || (n == 2 && b == 0)
    ensures var s, t := Sextets(a, b, 0), Chars(Sextets(a, b, 0)[..n]);
      && |t| == n && (forall k :: 0 <= k < n ==> IsBase64(t[k]) && Find(t[k]) == s[k])
      && s[3] == 0 && (b == 0 ==> s[2] == 0)
    ensures Pads(1)[0] == PAD && Pads(2)[0] == PAD
  {
    CharsOfGroup(a, b, 0);
    CharsPrefix(Sextets(a, b, 0), n);
    ZeroTail(a, b);
    assert Pads(2) == Pads(1) + [PAD];
  }

  lemma {:induction false} CharsPrefix(s: seq<byte>, n: nat)
    requires n <= |s|
    ensures Chars(s[..n]) == Chars(s)[..n]
  {
    forall k | 0 <= k < n
      ensures Chars(s[..n])[k] == Chars(s)[k]
    {
      CharsAt(s, k);
      CharsAt(s[..n], k);
    }
  }

  lemma ZeroTail(a: byte, b: byte)
    ensures Sextets(a, b, 0)[3] == 0 && Sextets(a, 0, 0)[2] == 0
  {
  }

  /** encode yields four characters for every three bytes begun. */
  lemma {:induction false} EncodedLength(b: seq<byte>)
    ensures |Encoded(b)| == 4 * ((|b| + 2) / 3)
  {
    if |b| >= 3 {
      EncodedLength(b[3..]);
    }
  }

  /** Two texts with the same alphabet prefix decode alike. */
  lemma PrefixDecides(s: seq<byte>, t: seq<byte>)
    requires s[..PrefixLen(s)] == t[..PrefixLen(t)]
    ensures Decoded(s) == Decoded(t)
  {
  }

  /** A prefix of length m decodes to 3 * (m / 4) bytes and one byte less than
      what is left over. */
  lemma {:induction false} UnpackedLength(t: seq<byte>)
    ensures |Unpacked(t)| == 3 * (|t| / 4) + (if |t| % 4 > 0 then |t| % 4 - 1 else 0)
  {
    if |t| >= 4 {
      UnpackedLength(t[4..]);
    }
  }
}
