/** Query-string encoding used by the URL builders: the
    application/x-www-form-urlencoded serializer and parser of section 5 of the
    WHATWG URL Standard (what `URLSearchParams` does), and the escaping done by
    JavaScript's `encodeURIComponent`. Both work on the UTF-8 bytes of a string. */
module UrlEncoding {
  import opened Prelude

  type Byte = b: int | 0 <= b < 256

  /** UTF-8 encoding of one Unicode scalar value. */
  function Utf8Char(c: char): (bs: seq<Byte>)
    ensures 1 <= |bs| <= 4
    ensures c as int < 0x80 ==> bs == [c as int]
  {
    var n := c as int;
    if n < 0x80 then [n]
    else if n < 0x800 then [0xC0 + n / 64, 0x80 + n % 64]
    else if n < 0x10000 then [0xE0 + n / 4096, 0x80 + (n / 64) % 64, 0x80 + n % 64]
    else [0xF0 + n / 262144, 0x80 + (n / 4096) % 64, 0x80 + (n / 64) % 64, 0x80 + n % 64]
  }

  function Utf8(s: string): seq<Byte>
  {
    if |s| == 0 then [] else Utf8Char(s[0]) + Utf8(s[1..])
  }

  /** Which bytes a scheme leaves as they are. */
  datatype Scheme =
    | Form       // the urlencoded byte serializer (section 5.2): space becomes '+'
    | Component  // encodeURIComponent: space becomes %20

  predicate IsAlnumByte(b: Byte)
  {
    (0x30 <= b <= 0x39) || (0x41 <= b <= 0x5A) || (0x61 <= b <= 0x7A)
  }

  predicate KeepsByte(scheme: Scheme, b: Byte)
  {
    match scheme
    case Form => IsAlnumByte(b) || b == 0x2A || b == 0x2D || b == 0x2E || b == 0x5F
    case Component =>
      IsAlnumByte(b) || b == 0x21 || b == 0x27 || b == 0x28 || b == 0x29 || b == 0x2A
      || b == 0x2D || b == 0x2E || b == 0x5F || b == 0x7E
  }

  function HexDigit(d: int): (c: char)
    requires 0 <= d < 16
  {
    if d < 10 then (48 + d) as char else (55 + d) as char
  }

  predicate IsHex(c: char)
  {
    ('0' <= c <= '9') || ('A' <= c <= 'F') || ('a' <= c <= 'f')
  }

  function HexValue(c: char): (d: int)
    requires IsHex(c)
    ensures 0 <= d < 16
  {
    if c <= '9' then c as int - 48 else if c <= 'F' then c as int - 55 else c as int - 87
  }

  function EncodeByte(scheme: Scheme, b: Byte): string
  {
    if scheme == Form && b == 0x20 then "+"
    else if KeepsByte(scheme, b) then [b as char]
    else ['%', HexDigit(b / 16), HexDigit(b % 16)]
  }

  function EncodeBytes(scheme: Scheme, bs: seq<Byte>): string
  {
    if |bs| == 0 then "" else EncodeByte(scheme, bs[0]) + EncodeBytes(scheme, bs[1..])
  }

  /** The escaped form of a string under a scheme. */
  function Encode(scheme: Scheme, s: string): string
  {
    EncodeBytes(scheme, Utf8(s))
  }

  /** JavaScript's `encodeURIComponent`. */
  function EncodeUriComponent(s: string): string
  {
    Encode(Component, s)
  }

  /** Percent-decoding of one name or value as the urlencoded parser does it:
      '+' becomes a space, "%XY" with two hex digits becomes that byte, any
      other character contributes its UTF-8 bytes. */
  function Decode(s: string): seq<Byte>
  {
    if |s| == 0 then []
    else if s[0] == '%' && |s| >= 3 && IsHex(s[1]) && IsHex(s[2]) then
      [HexValue(s[1]) * 16 + HexValue(s[2])] + Decode(s[3..])
    else if s[0] == '+' then [0x20] + Decode(s[1..])
    else Utf8Char(s[0]) + Decode(s[1..])
  }

  lemma DecodeEncodeByte(scheme: Scheme, b: Byte, rest: string)
    ensures Decode(EncodeByte(scheme, b) + rest) == [b] + Decode(rest)
  {
    var e := EncodeByte(scheme, b);
    if scheme == Form && b == 0x20 {
      assert (e + rest)[1..] == rest;
    } else if KeepsByte(scheme, b) {
      assert (e + rest)[1..] == rest;
    } else {
      assert (e + rest)[3..] == rest;
    }
  }

  /** Decoding an escaped byte string gives the bytes back, under either scheme. */
  lemma {:induction false} DecodeEncodeBytes(scheme: Scheme, bs: seq<Byte>)
    ensures Decode(EncodeBytes(scheme, bs)) == bs
  {
    if |bs| > 0 {
      DecodeEncodeBytes(scheme, bs[1..]);
      DecodeEncodeByte(scheme, bs[0], EncodeBytes(scheme, bs[1..]));
    }
  }

  lemma DecodeEncode(scheme: Scheme, s: string)
    ensures Decode(Encode(scheme, s)) == Utf8(s)
  {
    DecodeEncodeBytes(scheme, Utf8(s));
  }

  /** Characters an escaped string is made of. */
  predicate EscapedChar(c: char)
  {
    ('0' <= c <= '9') || ('A' <= c <= 'Z') || ('a' <= c <= 'z')
    || c == '%' || c == '+' || c == '*' || c == '-' || c == '.' || c == '_'
    || c == '!' || c == '~' || c == '\'' || c == '(' || c == ')'
  }

  /** No separator of the query syntax occurs in `s`. */
  predicate Clean(s: string)
  {
    '&' !in s && '=' !in s && '?' !in s && '#' !in s
  }

  lemma {:induction false} EncodeBytesEscaped(scheme: Scheme, bs: seq<Byte>)
    ensures forall i :: 0 <= i < |EncodeBytes(scheme, bs)| ==> EscapedChar(EncodeBytes(scheme, bs)[i])
  {
    if |bs| > 0 {
      EncodeBytesEscaped(scheme, bs[1..]);
      var head := EncodeByte(scheme, bs[0]);
      assert forall i :: 0 <= i < |head| ==> EscapedChar(head[i]);
    }
  }

  /** Escaping removes every separator: an encoded name or value cannot be
      confused with the query's own '&', '=', '?' or '#'. */
  lemma EncodeIsClean(scheme: Scheme, s: string)
    ensures Clean(Encode(scheme, s))
  {
    var e := Encode(scheme, s);
    EncodeBytesEscaped(scheme, Utf8(s));
    assert forall i :: 0 <= i < |e| ==> EscapedChar(e[i]);
  }

  /** A string all of whose characters the form scheme keeps. */
  predicate FormLiteral(s: string)
  {
    forall i :: 0 <= i < |s| ==> s[i] as int < 0x80 && KeepsByte(Form, s[i] as int)
  }

  /** Escaping leaves a plain literal (digits, letters, "-._*") unchanged. */
  lemma {:induction false} EncodeFormLiteral(s: string)
    requires FormLiteral(s)
    ensures Encode(Form, s) == s
  {
    if |s| > 0 {
      EncodeFormLiteral(s[1..]);
      assert Utf8(s)[1..] == Utf8(s[1..]);
      assert s == [s[0]] + s[1..];
    }
  }

  /** Joins pieces with a separator, as `Array.prototype.join` does. */
  function Join(pieces: seq<string>, sep: char): string
  {
    if |pieces| == 0 then ""
    else if |pieces| == 1 then pieces[0]
    else pieces[0] + [sep] + Join(pieces[1..], sep)
  }

  lemma JoinTwo(a: string, b: string, sep: char)
    ensures Join([a, b], sep) == a + [sep] + b
  {
    assert [a, b][1..] == [b];
  }

  lemma JoinThree(a: string, b: string, c: string, sep: char)
    ensures Join([a, b, c], sep) == a + [sep] + b + [sep] + c
  {
    assert [a, b, c][1..] == [b, c];
    JoinTwo(b, c, sep);
  }

  /** Splits on every occurrence of a separator; always at least one piece. */
  function Split(s: string, sep: char): (r: seq<string>)
    ensures |r| >= 1
  {
    if |s| == 0 then [""]
    else if s[0] == sep then [""] + Split(s[1..], sep)
    else
      var rest := Split(s[1..], sep);
      [[s[0]] + rest[0]] + rest[1..]
  }

  lemma {:induction false} SplitNoSep(a: string, sep: char)
    requires sep !in a
    ensures Split(a, sep) == [a]
  {
    if |a| > 0 {
      SplitNoSep(a[1..], sep);
      assert [a[0]] + a[1..] == a;
    }
  }

  lemma {:induction false} SplitAtSep(a: string, sep: char, b: string)
    requires sep !in a
    ensures Split(a + [sep] + b, sep) == [a] + Split(b, sep)
  {
    var s := a + [sep] + b;
    if |a| == 0 {
      assert s[1..] == b;
    } else {
      assert s[1..] == a[1..] + [sep] + b;
      SplitAtSep(a[1..], sep, b);
      assert [a[0]] + a[1..] == a;
    }
  }

  /** Splitting undoes joining when no piece holds the separator. */
  lemma {:induction false} SplitJoin(pieces: seq<string>, sep: char)
    requires |pieces| >= 1
    requires forall i :: 0 <= i < |pieces| ==> sep !in pieces[i]
    ensures Split(Join(pieces, sep), sep) == pieces
  {
    if |pieces| == 1 {
      SplitNoSep(pieces[0], sep);
    } else {
      SplitJoin(pieces[1..], sep);
      SplitAtSep(pieces[0], sep, Join(pieces[1..], sep));
      assert [pieces[0]] + pieces[1..] == pieces;
    }
  }

  /** The text before the first `c`, and the text after it if `c` occurs. */
  function Cut(s: string, c: char): (string, Option<string>)
  {
    if |s| == 0 then ("", None)
    else if s[0] == c then ("", Some(s[1..]))
    else
      var (before, after) := Cut(s[1..], c);
      ([s[0]] + before, after)
  }

  lemma {:induction false} CutAt(a: string, c: char, b: string)
    requires c !in a
    ensures Cut(a + [c] + b, c) == (a, Some(b))
  {
    var s := a + [c] + b;
    if |a| == 0 {
      assert s[1..] == b;
    } else {
      assert s[1..] == a[1..] + [c] + b;
      CutAt(a[1..], c, b);
      assert [a[0]] + a[1..] == a;
    }
  }

  lemma {:induction false} CutNone(s: string, c: char)
    requires c !in s
    ensures Cut(s, c) == (s, None)
  {
    if |s| > 0 {
      CutNone(s[1..], c);
      assert [s[0]] + s[1..] == s;
    }
  }

  /** The query string of a URL: what follows its first '?'. */
  function QueryOf(url: string): Option<string>
  {
    Cut(url, '?').1
  }

  /** A name/value pair as the parser yields it: byte strings. */
  datatype BytePair = BytePair(name: seq<Byte>, value: seq<Byte>)

  function ParsePiece(piece: string): BytePair
  {
    var (name, value) := Cut(piece, '=');
    BytePair(Decode(name), if value.Some? then Decode(value.value) else [])
  }

  function ParsePieces(pieces: seq<string>): seq<BytePair>
  {
    if |pieces| == 0 then []
    else if pieces[0] == "" then ParsePieces(pieces[1..])
    else [ParsePiece(pieces[0])] + ParsePieces(pieces[1..])
  }

  /** The application/x-www-form-urlencoded parser (section 5.1 of the WHATWG
      URL Standard), up to the final UTF-8 decoding of names and values.
      Splitting the string on '&' and '=' is the same as splitting its UTF-8
      bytes, since multi-byte sequences hold no ASCII byte. */
  function Parse(s: string): seq<BytePair>
  {
    ParsePieces(Split(s, '&'))
  }

  /** A name and a value as they stand in a query string, already escaped. */
  datatype Field = Field(name: string, value: string)

  function FieldPieces(fs: seq<Field>): (r: seq<string>)
    ensures |r| == |fs|
    ensures forall i :: 0 <= i < |fs| ==> r[i] == fs[i].name + "=" + fs[i].value
  {
    if |fs| == 0 then [] else [fs[0].name + "=" + fs[0].value] + FieldPieces(fs[1..])
  }

  /** `name=value` pieces joined with '&'. */
  function JoinFields(fs: seq<Field>): string
  {
    Join(FieldPieces(fs), '&')
  }

  function DecodeFields(fs: seq<Field>): (r: seq<BytePair>)
    ensures |r| == |fs|
    ensures forall i :: 0 <= i < |fs| ==> r[i] == BytePair(Decode(fs[i].name), Decode(fs[i].value))
  {
    if |fs| == 0 then [] else [BytePair(Decode(fs[0].name), Decode(fs[0].value))] + DecodeFields(fs[1..])
  }

  lemma FieldPieceParses(f: Field)
    requires Clean(f.name) && Clean(f.value)
    ensures '&' !in f.name + "=" + f.value
    ensures ParsePiece(f.name + "=" + f.value) == BytePair(Decode(f.name), Decode(f.value))
  {
    var piece := f.name + "=" + f.value;
    assert piece == f.name + ['='] + f.value;
    CutAt(f.name, '=', f.value);
  }

  lemma {:induction false} ParsePiecesOfFields(fs: seq<Field>)
    requires forall i :: 0 <= i < |fs| ==> Clean(fs[i].name) && Clean(fs[i].value)
    ensures ParsePieces(FieldPieces(fs)) == DecodeFields(fs)
  {
    if |fs| > 0 {
      FieldPieceParses(fs[0]);
      assert (fs[0].name + "=" + fs[0].value)[|fs[0].name|] == '=';
      ParsePiecesOfFields(fs[1..]);
      assert FieldPieces(fs)[1..] == FieldPieces(fs[1..]);
      assert DecodeFields(fs)[1..] == DecodeFields(fs[1..]);
    }
  }

  /** Parsing a query string made of clean names and values recovers each
      name and value, decoded, in order. */
  lemma ParseJoinFields(fs: seq<Field>)
    requires forall i :: 0 <= i < |fs| ==> Clean(fs[i].name) && Clean(fs[i].value)
    ensures Parse(JoinFields(fs)) == DecodeFields(fs)
  {
    var pieces := FieldPieces(fs);
    if |fs| == 0 {
      assert Split("", '&') == [""];
    } else {
      forall i | 0 <= i < |pieces|
        ensures '&' !in pieces[i]
      {
        FieldPieceParses(fs[i]);
      }
      SplitJoin(pieces, '&');
      ParsePiecesOfFields(fs);
    }
  }

  /** A URL made of a base without '?' and a query of clean fields: the
      query string is found after the '?' and parses back to the fields. */
  lemma ParseQueryUrl(base: string, fs: seq<Field>)
    requires '?' !in base
    requires forall i :: 0 <= i < |fs| ==> Clean(fs[i].name) && Clean(fs[i].value)
    ensures Cut(base + "?" + JoinFields(fs), '?') == (base, Some(JoinFields(fs)))
    ensures QueryOf(base + "?" + JoinFields(fs)) == Some(JoinFields(fs))
    ensures Parse(JoinFields(fs)) == DecodeFields(fs)
  {
    assert base + "?" + JoinFields(fs) == base + ['?'] + JoinFields(fs);
    CutAt(base, '?', JoinFields(fs));
    ParseJoinFields(fs);
  }

  /** A string with no escape syntax in it decodes to its own UTF-8 bytes. */
  lemma {:induction false} DecodePlain(s: string)
    requires '%' !in s && '+' !in s
    ensures Decode(s) == Utf8(s)
  {
    if |s| > 0 {
      DecodePlain(s[1..]);
    }
  }

  /** A name/value pair as a caller hands it to `URLSearchParams.append`. */
  datatype Param = Param(name: string, value: string)

  function EncodeParams(ps: seq<Param>): (r: seq<Field>)
    ensures |r| == |ps|
    ensures forall i :: 0 <= i < |ps| ==> r[i] == Field(Encode(Form, ps[i].name), Encode(Form, ps[i].value))
  {
    if |ps| == 0 then [] else [Field(Encode(Form, ps[0].name), Encode(Form, ps[0].value))] + EncodeParams(ps[1..])
  }

  /** The application/x-www-form-urlencoded serializer (section 5.2 of the
      WHATWG URL Standard): `URLSearchParams.prototype.toString`. */
  function Serialize(ps: seq<Param>): string
  {
    JoinFields(EncodeParams(ps))
  }

  /** What the parser must give back for a list of parameters. */
  function Utf8Params(ps: seq<Param>): (r: seq<BytePair>)
    ensures |r| == |ps|
    ensures forall i :: 0 <= i < |ps| ==> r[i] == BytePair(Utf8(ps[i].name), Utf8(ps[i].value))
  {
    if |ps| == 0 then [] else [BytePair(Utf8(ps[0].name), Utf8(ps[0].value))] + Utf8Params(ps[1..])
  }

  /** The round trip of section 5: parsing a serialized list gives every
      name and value back (as UTF-8), in order, with nothing added or lost. */
  lemma ParseSerialize(ps: seq<Param>)
    ensures Parse(Serialize(ps)) == Utf8Params(ps)
  {
    var fs := EncodeParams(ps);
    forall i | 0 <= i < |fs|
      ensures Clean(fs[i].name) && Clean(fs[i].value)
      ensures Decode(fs[i].name) == Utf8(ps[i].name) && Decode(fs[i].value) == Utf8(ps[i].value)
    {
      EncodeIsClean(Form, ps[i].name);
      EncodeIsClean(Form, ps[i].value);
      DecodeEncode(Form, ps[i].name);
      DecodeEncode(Form, ps[i].value);
    }
    ParseJoinFields(fs);
  }
}
