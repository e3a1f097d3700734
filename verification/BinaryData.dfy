/** `Binary_data`: octets with their base64 text, either of which may be filled
    in from the other. */
module BinaryDataModel {
  import opened Text
  import Base64

  /** The value of a `char` where `char` is signed. */
  function Signed(c: octet): int {
    if c as int < 128 then c as int else c as int - 256
  }

  /** Shifting a signed character and masking it gives its octet in place. */
  lemma MaskedShift(c: octet)
    ensures Signed(c) * 0x10000 % 0x100_0000 == c as int * 0x10000
    ensures Signed(c) * 0x100 % 0x1_0000 == c as int * 0x100
    ensures Signed(c) % 0x100 == c as int
  {
  }

  lemma FirstSextet(b0: nat)
    requires b0 < 256
    ensures b0 * 0x10000 / 0x40000 % 64 == b0 / 4
  {
    Divide(b0 * 0x10000, 0x40000, b0 / 4, b0 % 4 * 0x10000);
  }

  lemma SecondSextet(b0: nat, b1: nat)
    requires b0 < 256 && b1 < 256
    ensures (b0 * 0x10000 + b1 * 0x100) / 0x1000 % 64 == b0 % 4 * 16 + b1 / 16
  {
    Divide(b0 * 0x10000 + b1 * 0x100, 0x1000, b0 * 16 + b1 / 16, b1 % 16 * 0x100);
    Divide(b0 * 16 + b1 / 16, 64, b0 / 4, b0 % 4 * 16 + b1 / 16);
  }

  lemma ThirdSextet(b0: nat, b1: nat, b2: nat)
    requires b0 < 256 && b1 < 256 && b2 < 256
    ensures (b0 * 0x10000 + b1 * 0x100 + b2) / 0x40 % 64 == b1 % 16 * 4 + b2 / 64
  {
    Divide(b0 * 0x10000 + b1 * 0x100 + b2, 0x40, b0 * 0x400 + b1 * 4 + b2 / 64, b2 % 64);
    Divide(b0 * 0x400 + b1 * 4 + b2 / 64, 64, b0 * 16 + b1 / 16, b1 % 16 * 4 + b2 / 64);
  }

  lemma FourthSextet(b0: nat, b1: nat, b2: nat)
    requires b0 < 256 && b1 < 256 && b2 < 256
    ensures (b0 * 0x10000 + b1 * 0x100 + b2) % 64 == b2 % 64
  {
    Divide(b0 * 0x10000 + b1 * 0x100 + b2, 64, b0 * 0x400 + b1 * 4 + b2 / 64, b2 % 64);
  }

  lemma PackedSextets(b0: nat, b1: nat, b2: nat)
    requires b0 < 256 && b1 < 256 && b2 < 256
    ensures b0 * 0x10000 / 0x40000 % 64 == b0 / 4
    ensures (b0 * 0x10000 + b1 * 0x100) / 0x1000 % 64 == b0 % 4 * 16 + b1 / 16
    ensures (b0 * 0x10000 + b1 * 0x100 + b2) / 0x40 % 64 == b1 % 16 * 4 + b2 / 64
    ensures (b0 * 0x10000 + b1 * 0x100 + b2) % 64 == b2 % 64
  {
    FirstSextet(b0);
    SecondSextet(b0, b1);
    ThirdSextet(b0, b1, b2);
    FourthSextet(b0, b1, b2);
  }

  /** `decode_four`: None where Malformed_base64 is thrown. The sextets are
      joined pairwise and cut to a `char` as the original does. */
  method DecodeFour(q: string) returns (r: Option<bytes>)
    requires |q| == 4
    ensures r == Base64.DecodeFour(q)
  {
    if q[0] == '=' || q[1] == '=' {
      return None;
    }
    if !Base64.InAlphabet(q[0]) || !Base64.InAlphabet(q[1]) {
      return None;
    }
    var pair := Base64.Index(q[0]) * 64 + Base64.Index(q[1]);
    FirstOfPair(Base64.Index(q[0]), Base64.Index(q[1]));
    var out: bytes := [(pair / 16 % 256) as char];
    if q[2] == '=' {
      assert Base64.DecodeFour(q).value == out;
      return Some(out);
    }
    if !Base64.InAlphabet(q[2]) {
      return None;
    }
    pair := Base64.Index(q[1]) * 64 + Base64.Index(q[2]);
    SecondOfPair(Base64.Index(q[1]), Base64.Index(q[2]));
    out := out + [(pair / 4 % 256) as char];
    if q[3] == '=' {
      assert Base64.DecodeFour(q).value == out;
      return Some(out);
    }
    if !Base64.InAlphabet(q[3]) {
      return None;
    }
    pair := Base64.Index(q[2]) * 64 + Base64.Index(q[3]);
    ThirdOfPair(Base64.Index(q[2]), Base64.Index(q[3]));
    out := out + [(pair % 256) as char];
    assert Base64.DecodeFour(q).Some? && Base64.DecodeFour(q).value == out;
    return Some(out);
  }

  lemma FirstOfPair(i1: nat, i2: nat)
    requires i1 < 64 && i2 < 64
    ensures (i1 * 64 + i2) / 16 % 256 == i1 * 4 + i2 / 16
  {
    Divide(i1 * 64 + i2, 16, i1 * 4 + i2 / 16, i2 % 16);
  }

  lemma SecondOfPair(i2: nat, i3: nat)
    requires i2 < 64 && i3 < 64
    ensures (i2 * 64 + i3) / 4 % 256 == i2 % 16 * 16 + i3 / 4
  {
    Divide(i2 * 64 + i3, 4, i2 * 16 + i3 / 4, i3 % 4);
    Divide(i2 * 16 + i3 / 4, 256, i2 / 16, i2 % 16 * 16 + i3 / 4);
  }

  lemma ThirdOfPair(i3: nat, i4: nat)
    requires i3 < 64 && i4 < 64
    ensures (i3 * 64 + i4) % 256 == i3 % 4 * 64 + i4
  {
    Divide(i3 * 64 + i4, 256, i3 / 4, i3 % 4 * 64 + i4);
  }

  /** What decoding gives once `done` octets are out and `rest` is still to come. */
  function Onto(done: bytes, rest: Option<bytes>): Option<bytes> {
    match rest
    case None => None
    case Some(d) => Some(done + d)
  }

  class BinaryData {
    var data: bytes
    var base64: string

    /** A base64 text that is present decodes to the data. */
    predicate Valid()
      reads this
    {
      base64 == "" || Base64.Decode(base64) == Some(data)
    }

    constructor FromData(s: bytes)
      ensures Valid() && data == s && base64 == ""
    {
      data, base64 := s, "";
    }

    /** Keeps the text it was given; null where Malformed_base64 is thrown. */
    static method FromBase64(s: string) returns (r: BinaryData?)
      ensures r == null <==> Base64.Decode(s) == None
      ensures r != null ==> fresh(r) && r.Valid() && r.base64 == s && Base64.Decode(s) == Some(r.data)
    {
      var b := new BinaryData.FromData([]);
      b.base64 := s;
      var ok := b.DecodeText();
      r := if ok then b else null;
    }

    method DecodeText() returns (ok: bool)
      requires data == []
      modifies this`data
      ensures ok <==> Base64.Decode(base64).Some?
      ensures ok ==> Base64.Decode(base64) == Some(data)
    {
      var four := "";
      var i := 0;
      assert base64[0..] == base64 && four + Base64.Strip(base64) == Base64.Strip(base64);
      assert Onto(data, Base64.Decode(base64)) == Base64.Decode(base64) by {
        if Base64.Decode(base64).Some? {
          assert data + Base64.Decode(base64).value == Base64.Decode(base64).value;
        }
      }
      while i < |base64|
        invariant 0 <= i <= |base64| && |four| < 4
        invariant Base64.Decode(base64) == Onto(data, Base64.DecodeGroups(four + Base64.Strip(base64[i..])))
      {
        var c := base64[i];
        assert base64[i..][1..] == base64[i + 1..];
        var next := Base64.Strip(base64[i + 1..]);
        if !IsSpace(c) {
          assert four + ([c] + next) == four + [c] + next;
          four := four + [c];
          if |four| == 4 {
            assert (four + next)[..4] == four && (four + next)[4..] == next;
            var d := DecodeFour(four);
            if d == None {
              return false;
            }
            TwoParts(data, d.value, Base64.DecodeGroups(next));
            data := data + d.value;
            four := "";
            assert four + next == next;
          }
        }
        i := i + 1;
      }
      assert four + Base64.Strip(base64[i..]) == four;
      assert data + [] == data;
      ok := four == "";
    }

    /** The base64 text, made on the first call if there is none. */
    method GetBase64() returns (s: string)
      requires Valid()
      modifies this`base64
      ensures Valid() && s == base64
      ensures s == (if old(base64) != "" then old(base64) else Base64.Encode(data))
      ensures s == "" <==> data == [] && old(base64) == ""
      ensures s != "" ==> Base64.Decode(s) == Some(data)
    {
      if base64 == "" && data != [] {
        EncodeData();
        Base64.RoundTrip(data);
      }
      s := base64;
    }

    method EncodeData()
      requires base64 == ""
      modifies this`base64
      ensures base64 == Base64.Encode(data)
    {
      var i := 0;
      while i < |data|
        invariant 0 <= i <= |data|
        invariant base64 + Base64.Encode(data[i..]) == Base64.Encode(data)
      {
        var n := if i + 3 < |data| then i + 3 else |data|;
        var four := EncodeGroup(data[i..n]);
        OneMoreGroup(base64, data, i, n, four);
        base64 := base64 + four;
        i := n;
      }
      assert data[i..] == [];
    }
  }

  /** The body of the encoding loop: up to three octets packed into one number
      and taken out again six bits at a time. */
  method EncodeGroup(d: bytes) returns (four: string)
    requires 1 <= |d| <= 3
    ensures four == Base64.EncodeGroup(d)
  {
    var x0, x1, x2, x3 := SplitGroup(d);
    four := [Base64.Symbol(x0), Base64.Symbol(x1)];
    if |d| == 1 {
      return four + "==";
    }
    four := four + [Base64.Symbol(x2)];
    if |d| == 2 {
      return four + "=";
    }
    return four + [Base64.Symbol(x3)];
  }

  method SplitGroup(d: bytes) returns (x0: nat, x1: nat, x2: nat, x3: nat)
    requires 1 <= |d| <= 3
    ensures var b0, b1, b2 := Base64.OctetAt(d, 0), Base64.OctetAt(d, 1), Base64.OctetAt(d, 2);
      x0 == b0 / 4 && x1 == b0 % 4 * 16 + b1 / 16 && x2 == b1 % 16 * 4 + b2 / 64 && x3 == b2 % 64
  {
    PackedSextets(Base64.OctetAt(d, 0), Base64.OctetAt(d, 1), Base64.OctetAt(d, 2));
    MaskedShift(d[0]);
    var c := Signed(d[0]) * 0x10000 % 0x100_0000;
    x0 := c / 0x40000 % 64;
    if |d| > 1 {
      MaskedShift(d[1]);
      c := c + Signed(d[1]) * 0x100 % 0x1_0000;
    }
    x1 := c / 0x1000 % 64;
    if |d| > 2 {
      MaskedShift(d[2]);
      c := c + Signed(d[2]) % 0x100;
    }
    x2, x3 := c / 0x40 % 64, c % 64;
  }

  /** The text of the group at `i` can go from what is to come to what is done. */
  lemma OneMoreGroup(done: string, data: bytes, i: nat, n: nat, four: string)
    requires i < |data| && n == if i + 3 < |data| then i + 3 else |data|
    requires four == Base64.EncodeGroup(data[i..n])
    ensures done + Base64.Encode(data[i..]) == (done + four) + Base64.Encode(data[n..])
  {
    assert Base64.Encode(data[i..]) == four + Base64.Encode(data[n..]) by {
      Base64.FirstGroup(data[i..]);
      GroupSlices(data, i, n);
    }
    Associates(done, four, Base64.Encode(data[n..]));
  }

  lemma GroupSlices(data: bytes, i: nat, n: nat)
    requires i <= n <= |data|
    ensures data[i..][..n - i] == data[i..n] && data[i..][n - i..] == data[n..]
  {
  }

  lemma TwoParts(a: bytes, b: bytes, rest: Option<bytes>)
    ensures Onto(a, Onto(b, rest)) == Onto(a + b, rest)
  {
    if rest.Some? {
      assert a + (b + rest.value) == a + b + rest.value;
    }
  }
}
