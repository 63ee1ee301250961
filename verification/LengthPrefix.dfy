/**
 The length-prefixed field encoding of channels/dedup.go. Strings are byte strings,
 one char per byte.
 */
module LengthPrefix {
  import opened Wrappers

  function Digit(d: nat): char
    requires d < 10
  {
    '0' + d as char
  }

  /** strconv.Itoa for lengths. */
  function Itoa(n: nat): string {
    if n < 10 then [Digit(n)] else Itoa(n / 10) + [Digit(n % 10)]
  }

  function Atoi(s: string): int {
    if s == [] then 0 else Atoi(s[..|s| - 1]) * 10 + (s[|s| - 1] as int - '0' as int)
  }

  lemma {:induction false} AtoiItoa(n: nat)
    ensures Atoi(Itoa(n)) == n && ':' !in Itoa(n) && Itoa(n) != []
  {
    if n >= 10 {
      AtoiItoa(n / 10);
      assert Itoa(n)[..|Itoa(n)| - 1] == Itoa(n / 10);
    } else {
      assert Itoa(n)[..0] == [];
    }
  }

  function Field(field: string): string {
    Itoa(|field|) + ":" + field
  }

  function Encoded(fields: seq<string>): string {
    if fields == [] then [] else Field(fields[0]) + Encoded(fields[1..])
  }

  /** lengthPrefixed: the encodings of the fields, appended in order. */
  method LengthPrefixed(fields: seq<string>) returns (buf: string)
    ensures buf == Encoded(fields)
  {
    buf := [];
    for i := 0 to |fields|
      invariant buf + Encoded(fields[i..]) == Encoded(fields)
    {
      ghost var before := buf;
      buf := buf + Itoa(|fields[i]|);
      buf := buf + ":";
      buf := buf + fields[i];
      assert fields[i..][1..] == fields[i + 1..];
      assert buf == before + Field(fields[i]);
      assert buf + Encoded(fields[i + 1..]) == before + (Field(fields[i]) + Encoded(fields[i + 1..]));
    }
  }

  function Colon(s: string): (k: nat)
    ensures k <= |s|
    ensures k < |s| ==> s[k] == ':'
    ensures ':' !in s[..k]
  {
    if s == [] || s[0] == ':' then 0 else
      assert s[..1 + Colon(s[1..])] == [s[0]] + s[1..][..Colon(s[1..])];
      1 + Colon(s[1..])
  }

  lemma {:induction false} ColonAfter(digits: string, rest: string)
    requires ':' !in digits
    ensures Colon(digits + (":" + rest)) == |digits|
  {
    if digits != [] {
      assert (digits + (":" + rest))[1..] == digits[1..] + (":" + rest);
      ColonAfter(digits[1..], rest);
    }
  }

  /** A reader of the encoding: a length up to the first colon, then that many bytes. */
  function Decoded(s: string): Option<seq<string>>
    decreases |s|
  {
    if s == [] then Some([]) else
      var k := Colon(s);
      if k == |s| then None else
        var n := Atoi(s[..k]);
        var rest := s[k + 1..];
        if n < 0 || n > |rest| then None else
          var more := Decoded(rest[n..]);
          if more == None then None else Some([rest[..n]] + more.value)
  }

  lemma {:induction false} FieldShape(f: string, tail: string)
    ensures var s, digits := Field(f) + tail, Itoa(|f|);
            && |digits| + 1 + |f| <= |s| && Colon(s) == |digits| && Atoi(s[..|digits|]) == |f|
            && s[|digits| + 1..] == f + tail
  {
    hide Itoa, Atoi, Colon;
    var s, digits := Field(f) + tail, Itoa(|f|);
    AtoiItoa(|f|);
    assert s == digits + (":" + (f + tail));
    ColonAfter(digits, f + tail);
    assert s[..|digits|] == digits;
  }

  /** One field is read back, and reading goes on with what follows it. */
  lemma {:induction false} DecodeField(f: string, tail: string)
    requires Decoded(tail).Some?
    ensures Decoded(Field(f) + tail) == Some([f] + Decoded(tail).value)
  {
    hide Itoa, Atoi, Colon, Field;
    FieldShape(f, tail);
    assert (f + tail)[..|f|] == f && (f + tail)[|f|..] == tail;
  }

  /** Field lists of any length, with any contents, are read back exactly. */
  lemma {:induction false} RoundTrip(fields: seq<string>)
    ensures Decoded(Encoded(fields)) == Some(fields)
    decreases |fields|
  {
    if fields != [] {
      RoundTrip(fields[1..]);
      DecodeField(fields[0], Encoded(fields[1..]));
      hide Decoded;
      assert [fields[0]] + fields[1..] == fields;
    }
  }

  /** No field's contents can shift a boundary: equal encodings are of equal lists. */
  lemma {:induction false} Injective(fields: seq<string>, others: seq<string>)
    ensures Encoded(fields) == Encoded(others) <==> fields == others
  {
    RoundTrip(fields);
    RoundTrip(others);
  }
}
