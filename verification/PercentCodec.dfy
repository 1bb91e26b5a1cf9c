/**
 Percent encoding of URI components (sections 2.1 and 2.3 of RFC 3986), with the form rule that
 `+` decodes to a space. Texts are byte strings: characters below 256.
 */
module PercentCodec {
  import opened Common
  import opened Strings

  predicate Bytes(s: string) {
    forall i :: 0 <= i < |s| ==> s[i] as int < 256
  }

  predicate Plain(c: char, keepSlashes: bool) {
    IsAlnum(c) || c == '-' || c == '.' || c == '_' || c == '~' || (keepSlashes && c == '/')
  }

  function HexChar(n: nat): (r: char)
    requires n < 16
    ensures r as int == if n < 10 then '0' as int + n else 'A' as int + n - 10
  {
    "0123456789ABCDEF"[n]
  }

  function EncodeChar(c: char, keepSlashes: bool): string
    requires c as int < 256
  {
    if Plain(c, keepSlashes) then [c] else ['%', HexChar(c as int / 16), HexChar(c as int % 16)]
  }

  function Encode(s: string, keepSlashes: bool): string
    requires Bytes(s)
  {
    if s == "" then "" else EncodeChar(s[0], keepSlashes) + Encode(s[1..], keepSlashes)
  }

  function HexDigit(c: char): (r: Option<nat>)
    ensures r.Some? ==> r.value < 16
  {
    if '0' <= c <= '9' then Some(c as int - '0' as int)
    else if 'a' <= c <= 'f' then Some(c as int - 'a' as int + 10)
    else if 'A' <= c <= 'F' then Some(c as int - 'A' as int + 10)
    else None
  }

  function Prefixed(c: char, rest: Option<string>): Option<string> {
    if rest.None? then None else Some([c] + rest.value)
  }

  function Decode(s: string): Option<string>
    decreases |s|
  {
    if s == "" then Some("")
    else if s[0] == '+' then Prefixed(' ', Decode(s[1..]))
    else if s[0] != '%' then Prefixed(s[0], Decode(s[1..]))
    else if |s| < 3 then None
    else
      var hi, lo := HexDigit(s[1]), HexDigit(s[2]);
      if hi.None? || lo.None? then None
      else Prefixed((16 * hi.value + lo.value) as char, Decode(s[3..]))
  }

  method PercentEncode(s: string, keepSlashes: bool) returns (r: string)
    requires Bytes(s)
    ensures r == Encode(s, keepSlashes)
  {
    r := "";
    var i := 0;
    while i < |s|
      invariant 0 <= i <= |s|
      invariant r + Encode(s[i..], keepSlashes) == Encode(s, keepSlashes)
    {
      ghost var was, rest := r, Encode(s[i + 1..], keepSlashes);
      if Plain(s[i], keepSlashes) {
        r := r + [s[i]];
      } else {
        r := r + ['%'];
        r := r + [HexChar(s[i] as int / 16)];
        r := r + [HexChar(s[i] as int % 16)];
      }
      assert s[i..][1..] == s[i + 1..];
      assert r == was + EncodeChar(s[i], keepSlashes);
      Associates(was, EncodeChar(s[i], keepSlashes), rest);
      i := i + 1;
    }
  }

  function Onto(out: string, rest: Option<string>): Option<string> {
    if rest.None? then None else Some(out + rest.value)
  }

  lemma OntoPrefixed(out: string, c: char, rest: Option<string>)
    ensures Onto(out, Prefixed(c, rest)) == Onto(out + [c], rest)
  {
    if rest.Some? { assert out + ([c] + rest.value) == out + [c] + rest.value; }
  }

  /** Fails on a broken escape; the caller then checks that the bytes are UTF-8. */
  method DecodeComponent(s: string) returns (r: Option<string>)
    ensures r == Decode(s)
  {
    var out, i := "", 0;
    assert s[0..] == s && (Decode(s).Some? ==> "" + Decode(s).value == Decode(s).value);
    while i < |s|
      invariant 0 <= i <= |s|
      invariant Decode(s) == Onto(out, Decode(s[i..]))
    {
      ghost var was, rest := out, s[i..];
      var used, c := 1, s[i];
      if s[i] == '+' {
        c := ' ';
      } else if s[i] == '%' && i + 2 < |s| {
        var hi, lo := HexDigit(s[i + 1]), HexDigit(s[i + 2]);
        if hi.None? || lo.None? { return None; }
        used, c := 3, (16 * hi.value + lo.value) as char;
      } else if s[i] == '%' {
        return None;
      }
      assert rest[used..] == s[i + used..];
      OntoPrefixed(out, c, Decode(rest[used..]));
      out, i := out + [c], i + used;
    }
    r := Some(out);
    assert out + "" == out;
  }

  lemma HexRoundTrip(n: nat)
    requires n < 16
    ensures HexDigit(HexChar(n)) == Some(n) && IsAlnum(HexChar(n))
  {
  }

  lemma DecodeOne(c: char, keepSlashes: bool, rest: string)
    requires c as int < 256
    ensures Decode(EncodeChar(c, keepSlashes) + rest) == Prefixed(c, Decode(rest))
  {
    var head, n := EncodeChar(c, keepSlashes), c as int;
    var s := head + rest;
    assert s[|head|..] == rest;
    if !Plain(c, keepSlashes) {
      HexRoundTrip(n / 16);
      HexRoundTrip(n % 16);
      assert 16 * (n / 16) + n % 16 == n;
    }
  }

  /** Decoding undoes encoding, for every byte string and both slash modes. */
  lemma {:induction false} DecodeEncode(s: string, keepSlashes: bool)
    requires Bytes(s)
    ensures Decode(Encode(s, keepSlashes)) == Some(s)
  {
    if s != "" {
      DecodeEncode(s[1..], keepSlashes);
      DecodeOne(s[0], keepSlashes, Encode(s[1..], keepSlashes));
      assert s == [s[0]] + s[1..];
    }
  }

  /** An encoded component holds only unreserved characters and escapes, so no URI delimiter. */
  lemma {:induction false} EncodedChars(s: string, keepSlashes: bool)
    requires Bytes(s)
    ensures forall i :: 0 <= i < |Encode(s, keepSlashes)| ==>
              Plain(Encode(s, keepSlashes)[i], keepSlashes) || Encode(s, keepSlashes)[i] == '%'
  {
    if s != "" {
      EncodedChars(s[1..], keepSlashes);
      HexRoundTrip(s[0] as int / 16);
      HexRoundTrip(s[0] as int % 16);
    }
  }

  /** A component passes through unchanged exactly when it has nothing to escape. */
  lemma {:induction false} EncodePlain(s: string, keepSlashes: bool)
    requires Bytes(s)
    ensures '%' !in Encode(s, keepSlashes) <==> forall i :: 0 <= i < |s| ==> Plain(s[i], keepSlashes)
    ensures '%' !in Encode(s, keepSlashes) ==> Encode(s, keepSlashes) == s
  {
    if s != "" {
      EncodePlain(s[1..], keepSlashes);
      var head, tail := EncodeChar(s[0], keepSlashes), Encode(s[1..], keepSlashes);
      assert s == [s[0]] + s[1..];
      if Plain(s[0], keepSlashes) {
        assert '%' in head + tail <==> '%' in tail;
        forall i | 0 < i < |s|
          ensures s[i] == s[1..][i - 1]
        {
        }
      } else {
        assert (head + tail)[0] == '%';
      }
    }
  }

  // ---------------------------------------------------------------- every spelling

  /** How a byte may be written: as itself, as `+` for a space, or as an escape in either letter case. */
  predicate Spells(c: char, t: string) {
    || (t == [c] && c != '+' && c != '%')
    || (t == "+" && c == ' ')
    || (|t| == 3 && t[0] == '%' && c as int < 256 &&
        SameHex(t[1], c as int / 16) && SameHex(t[2], c as int % 16))
  }

  predicate SameHex(c: char, n: nat)
    requires n < 16
  {
    c == HexChar(n) || (n >= 10 && c == LowerChar(HexChar(n)))
  }

  ghost predicate Spelled(r: string, spellings: seq<string>) {
    |r| == |spellings| && forall i :: 0 <= i < |r| ==> Spells(r[i], spellings[i])
  }

  function Concat(parts: seq<string>): string {
    if parts == [] then "" else parts[0] + Concat(parts[1..])
  }

  lemma HexIff(c: char, n: nat)
    requires n < 16
    ensures HexDigit(c) == Some(n) <==> SameHex(c, n)
  {
  }

  lemma EscapeRead(s: string, c: char)
    requires |s| >= 3 && s[0] == '%' && Spells(c, s[..3])
    ensures Decode(s) == Prefixed(c, Decode(s[3..]))
  {
    var n := c as int;
    HexIff(s[1], n / 16);
    HexIff(s[2], n % 16);
    assert 16 * (n / 16) + n % 16 == n;
  }

  lemma SpellingRead(c: char, t: string, rest: string)
    requires Spells(c, t)
    ensures Decode(t + rest) == Prefixed(c, Decode(rest))
  {
    var s := t + rest;
    assert s[|t|..] == rest;
    if |t| == 3 {
      assert s[..3] == t;
      EscapeRead(s, c);
    }
  }

  /** Any spelling of a text decodes to it. */
  lemma {:induction false} SpelledDecodes(r: string, spellings: seq<string>)
    requires Spelled(r, spellings)
    ensures Decode(Concat(spellings)) == Some(r)
  {
    if r != "" {
      SpelledDecodes(r[1..], spellings[1..]);
      SpellingRead(r[0], spellings[0], Concat(spellings[1..]));
      assert r == [r[0]] + r[1..];
    }
  }

  lemma SpelledCons(c: char, t: string, r: string, spellings: seq<string>)
    requires Spells(c, t) && Spelled(r, spellings)
    ensures Spelled([c] + r, [t] + spellings) && Concat([t] + spellings) == t + Concat(spellings)
  {
    assert ([t] + spellings)[1..] == spellings;
  }

  /** How many characters spell the first byte. */
  function FirstLength(s: string): nat {
    if s != "" && s[0] == '%' then 3 else 1
  }

  lemma FirstSpelled(s: string)
    requires s != "" && Decode(s).Some?
    ensures FirstLength(s) <= |s| && Decode(s[FirstLength(s)..]).Some?
    ensures Decode(s).value != "" && Spells(Decode(s).value[0], s[..FirstLength(s)])
    ensures Decode(s).value[1..] == Decode(s[FirstLength(s)..]).value
  {
    if s[0] == '%' {
      var hi, lo := HexDigit(s[1]).value, HexDigit(s[2]).value;
      HexIff(s[1], hi);
      HexIff(s[2], lo);
      assert (16 * hi + lo) / 16 == hi && (16 * hi + lo) % 16 == lo;
    }
  }

  lemma {:induction false} DecodedIsSpelled(s: string) returns (spellings: seq<string>)
    requires Decode(s).Some?
    ensures Spelled(Decode(s).value, spellings) && Concat(spellings) == s
    decreases |s|
  {
    spellings := [];
    if s != "" {
      FirstSpelled(s);
      var n, r := FirstLength(s), Decode(s).value;
      var rest := DecodedIsSpelled(s[n..]);
      SpelledCons(r[0], s[..n], r[1..], rest);
      spellings := [s[..n]] + rest;
      assert r == [r[0]] + r[1..] && s == s[..n] + s[n..];
    }
  }

  /** A text decodes to `r` exactly when it is some spelling of `r`, byte by byte; any other is refused. */
  lemma DecodeIff(s: string, r: string)
    ensures Decode(s) == Some(r) <==> exists spellings :: Spelled(r, spellings) && Concat(spellings) == s
  {
    if Decode(s) == Some(r) {
      var spellings := DecodedIsSpelled(s);
      assert Spelled(r, spellings) && Concat(spellings) == s;
    }
    if spellings :| Spelled(r, spellings) && Concat(spellings) == s {
      SpelledDecodes(r, spellings);
    }
  }
}
