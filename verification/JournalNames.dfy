/** Journal file names: how open and create build them, and what recovery reads back from
    them after a crash. */
module JournalNames {
  import opened FileContents
  import opened Names

  // ---- base64url ----

  /** The alphabet of section 5 of RFC 4648. */
  function Letter(v: nat): (c: char)
    requires v < 64
  {
    if v < 26 then 'A' + v as char
    else if v < 52 then 'a' + (v - 26) as char
    else if v < 62 then '0' + (v - 52) as char
    else if v == 62 then '-' else '_'
  }

  function Value(c: char): Option<nat> {
    if 'A' <= c <= 'Z' then Some((c - 'A') as nat)
    else if 'a' <= c <= 'z' then Some((c - 'a') as nat + 26)
    else if '0' <= c <= '9' then Some((c - '0') as nat + 52)
    else if c == '-' then Some(62)
    else if c == '_' then Some(63)
    else None
  }

  function Group(x: byte, y: byte, z: byte): string {
    [Letter(Hi6(x)), Letter(Lo2(x) * 16 + Hi4(y)), Letter(Lo4(y) * 4 + Hi2(z)), Letter(Lo6(z))]
  }

  /** Three bytes become four letters; a last group of one or two is padded. */
  function Encode(b: Bytes): string {
    if b == [] then ""
    else if |b| == 1 then [Letter(Hi6(b[0])), Letter(Lo2(b[0]) * 16), '=', '=']
    else if |b| == 2 then
      [Letter(Hi6(b[0])), Letter(Lo2(b[0]) * 16 + Hi4(b[1])), Letter(Lo4(b[1]) * 4), '=']
    else Group(b[0], b[1], b[2]) + Encode(b[3..])
  }

  function Hi6(x: byte): nat { x as nat / 4 }

  function Lo2(x: byte): nat { x as nat % 4 }

  function Hi4(x: byte): nat { x as nat / 16 }

  function Lo4(x: byte): nat { x as nat % 16 }

  function Hi2(x: byte): nat { x as nat / 64 }

  function Lo6(x: byte): nat { x as nat % 64 }

  /** Four letters to three bytes. */
  function Quad(a: char, b: char, c: char, d: char): (r: Option<Bytes>)
    ensures r.Some? ==> |r.value| == 3
  {
    if Value(a).None? || Value(b).None? || Value(c).None? || Value(d).None? then None
    else
      var v0, v1, v2, v3 := Value(a).value, Value(b).value, Value(c).value, Value(d).value;
      Some([Byte(v0 * 4 + v1 / 16), Byte(v1 * 16 + v2 / 4), Byte(v2 * 64 + v3)])
  }

  /** The last four letters, which may end in padding. */
  function LastQuad(a: char, b: char, c: char, d: char): (r: Option<Bytes>)
    ensures r.Some? ==> |r.value| <= 3
  {
    if d != '=' then Quad(a, b, c, d)
    else if Value(a).None? || Value(b).None? then None
    else if c == '=' then Some([Byte(Value(a).value * 4 + Value(b).value / 16)])
    else if Value(c).None? then None
    else Some([Byte(Value(a).value * 4 + Value(b).value / 16), Byte(Value(b).value * 16 + Value(c).value / 4)])
  }

  /** The inverse; a text of the wrong length, or with other letters, is refused. */
  function Decode(s: string): Option<Bytes> {
    if s == "" then Some([])
    else if |s| < 4 then None
    else if |s| == 4 then LastQuad(s[0], s[1], s[2], s[3])
    else
      var first, rest := Quad(s[0], s[1], s[2], s[3]), Decode(s[4..]);
      if first.None? || rest.None? then None else Some(first.value + rest.value)
  }

  function Byte(n: nat): byte {
    (n % 256) as byte
  }

  lemma First(x: byte, y: byte)
    ensures Byte(Hi6(x) * 4 + (Lo2(x) * 16 + Hi4(y)) / 16) == x && Byte(Hi6(x) * 4 + Lo2(x) * 16 / 16) == x
  {}

  lemma Second(x: byte, y: byte, z: byte)
    ensures Byte((Lo2(x) * 16 + Hi4(y)) * 16 + (Lo4(y) * 4 + Hi2(z)) / 4) == y
    ensures Byte((Lo2(x) * 16 + Hi4(y)) * 16 + Lo4(y) * 4 / 4) == y
  {
    var u, v, w := Lo2(x), Lo4(y), Hi2(z);
    assert (v * 4 + w) / 4 == v && v * 4 / 4 == v;
    assert (u * 16 + Hi4(y)) * 16 + v == u * 256 + y as nat;
  }

  lemma Third(y: byte, z: byte)
    ensures Byte((Lo4(y) * 4 + Hi2(z)) * 64 + Lo6(z)) == z
  {
    assert (Lo4(y) * 4 + Hi2(z)) * 64 + Lo6(z) == Lo4(y) * 256 + z as nat;
  }

  lemma GroupQuad(x: byte, y: byte, z: byte)
    ensures var g := Group(x, y, z);
      Quad(g[0], g[1], g[2], g[3]) == Some([x, y, z]) == LastQuad(g[0], g[1], g[2], g[3])
  {
    hide Letter, Value, Byte, Hi6, Lo2, Hi4, Lo4, Hi2, Lo6;
    First(x, y);
    Second(x, y, z);
    Third(y, z);
    Letters(x, y, z);
  }

  lemma GroupDecodes(x: byte, y: byte, z: byte, rest: string)
    requires Decode(rest).Some?
    ensures Decode(Group(x, y, z) + rest) == Some([x, y, z] + Decode(rest).value)
  {
    GroupQuad(x, y, z);
    var g := Group(x, y, z);
    assert |g| == 4;
    hide Group, Quad, LastQuad;
    var s := g + rest;
    assert s[4..] == rest;
    assert s[0] == g[0] && s[1] == g[1] && s[2] == g[2] && s[3] == g[3];
    assert rest == "" ==> [x, y, z] + Decode(rest).value == [x, y, z];
  }

  lemma PaddedDecodes(x: byte, y: byte)
    ensures Decode(Encode([x])) == Some([x]) && Decode(Encode([x, y])) == Some([x, y])
  {
    hide Letter, Value, Byte, Hi6, Lo2, Hi4, Lo4, Hi2, Lo6;
    First(x, y);
    Second(x, y, 0);
    Letters(x, y, 0);
  }

  /** Decoding undoes encoding. */
  lemma {:induction false} DecodeEncode(b: Bytes)
    ensures Decode(Encode(b)) == Some(b)
  {
    hide Letter, Value;
    if |b| == 1 || |b| == 2 {
      PaddedDecodes(b[0], if |b| == 2 then b[1] else 0);
      assert b == if |b| == 1 then [b[0]] else [b[0], b[1]];
    } else if b != [] {
      hide Decode, Group;
      assert b == [b[0], b[1], b[2]] + b[3..];
      DecodeEncode(b[3..]);
      GroupDecodes(b[0], b[1], b[2], Encode(b[3..]));
    }
  }

  /** The letters of a group, and of the padded groups of one and two bytes. */
  lemma Letters(x: byte, y: byte, z: byte)
    ensures IsLetter(Hi6(x)) && IsLetter(Lo2(x) * 16 + Hi4(y)) && IsLetter(Lo4(y) * 4 + Hi2(z)) && IsLetter(Lo6(z))
    ensures IsLetter(Lo2(x) * 16) && IsLetter(Lo4(y) * 4)
  {}

  predicate IsLetter(v: nat) {
    v < 64 && Value(Letter(v)) == Some(v) && Letter(v) != '='
  }

  /** What an encoded name is made of: no slash, in particular. */
  predicate NameChar(c: char) {
    'A' <= c <= 'Z' || 'a' <= c <= 'z' || '0' <= c <= '9' || c in {'-', '_', '='}
  }

  lemma {:induction false} EncodePlain(b: Bytes, i: nat)
    requires i < |Encode(b)|
    ensures NameChar(Encode(b)[i])
  {
    LettersPlain();
    if |b| > 2 && i >= 4 {
      EncodePlain(b[3..], i - 4);
    }
  }

  lemma LettersPlain()
    ensures forall v: nat :: v < 64 ==> NameChar(Letter(v))
  {}

  /** Vectors of section 10 of RFC 4648, and one for the last two letters of the alphabet. */
  lemma KnownCodes()
    ensures Encode([102]) == "Zg==" && Encode([102, 111]) == "Zm8=" && Encode([102, 111, 111]) == "Zm9v"
    ensures Encode([102, 111, 111, 98, 97, 114]) == "Zm9vYmFy" && Encode([251, 255]) == "-_8="
  {
    var foobar: Bytes := [102, 111, 111, 98, 97, 114];
    assert foobar[3..] == [98, 97, 114] && foobar[3..][3..] == [];
    var foo: Bytes := [102, 111, 111];
    assert foo[3..] == [];
  }

  lemma {:induction false} EncodeLength(b: Bytes)
    ensures |Encode(b)| == (|b| + 2) / 3 * 4
  {
    if |b| > 2 {
      EncodeLength(b[3..]);
    }
  }

  lemma {:induction false} DecodeLength(s: string)
    requires Decode(s).Some?
    ensures |s| % 4 == 0 && 4 * |Decode(s).value| <= 3 * |s|
    decreases |s|
  {
    hide Quad, LastQuad;
    if |s| > 4 {
      DecodeLength(s[4..]);
    }
  }

  /** Nothing shorter decodes to the same bytes. */
  lemma ShorterDiffers(b: Bytes, s: string)
    requires |s| < |Encode(b)|
    ensures Decode(s) != Some(b)
  {
    EncodeLength(b);
    if Decode(s).Some? {
      DecodeLength(s);
    }
  }

  // ---- the two patterns of recovery ----

  /** The characters before the first underscore. */
  function FirstRun(s: string): (r: string)
    ensures r <= s && NoUnderscore(r)
    ensures |r| < |s| ==> s[|r|] == '_'
    ensures NoUnderscore(s) ==> r == s
  {
    if s == "" || s[0] == '_' then "" else [s[0]] + FirstRun(s[1..])
  }

  /** A non-empty run and the underscore that ends it, at the start of a text: the run and
      what comes after the underscore. */
  function Run(s: string): Option<(string, string)> {
    var r := FirstRun(s);
    if r == "" || |r| == |s| then None else Some((r, s[|r| + 1..]))
  }

  /** The pattern matches in one way, if at all. */
  lemma RunIff(s: string, r: string, rest: string)
    ensures Run(s) == Some((r, rest)) <==> s == r + "_" + rest && r != "" && NoUnderscore(r)
  {
    if s == r + "_" + rest && NoUnderscore(r) {
      RunOf(r, rest);
    }
    if Run(s) == Some((r, rest)) {
      assert s == r + [s[|r|]] + s[|r| + 1..];
    }
  }

  lemma {:induction false} RunOf(id: string, rest: string)
    ensures FirstRun(id + "_" + rest) == FirstRun(id)
  {
    var s := id + "_" + rest;
    if id != "" && id[0] != '_' {
      assert s[1..] == id[1..] + "_" + rest;
      RunOf(id[1..], rest);
    } else {
      assert s[0] == '_';
    }
  }

  function After(prefix: string, s: string): Option<string> {
    if prefix <= s then Some(s[|prefix|..]) else None
  }

  datatype Recovered = Edit(id: FileId) | Create(parent: FileId, name: Bytes) | Undecodable | Ignored

  /** What recovery makes of a file in the journal directory. */
  function Recover(filename: string): Recovered {
    var edit := After("edit_", filename);
    if edit.Some? && Run(edit.value).Some? then Edit(Run(edit.value).value.0)
    else
      var create := After("create_", filename);
      if create.None? || Run(create.value).None? || Run(Run(create.value).value.1).None? then Ignored
      else
        var name := Decode(Run(Run(create.value).value.1).value.0);
        if name.None? then Undecodable else Create(Run(create.value).value.0, name.value)
  }

  function EditName(id: FileId, suffix: string): string {
    "edit_" + (id + "_" + suffix)
  }

  function CreateName(parent: FileId, name: Bytes, suffix: string): string {
    "create_" + (parent + "_" + (Encode(name) + "_" + suffix))
  }

  lemma AfterPrefix(prefix: string, s: string)
    ensures After(prefix, prefix + s) == Some(s)
  {}

  /** An edit journal is read back as the part of the id before its first underscore, or
      not at all if that is empty. */
  lemma EditParses(id: FileId, suffix: string)
    ensures Recover(EditName(id, suffix)) == if FirstRun(id) == "" then Ignored else Edit(FirstRun(id))
  {
    var rest := id + "_" + suffix;
    AfterPrefix("edit_", rest);
    RunOf(id, suffix);
    assert EditName(id, suffix)[0] == 'e';
  }

  /** So the id comes back, whatever the suffix, exactly when it is not empty and has no
      underscore. */
  lemma EditRoundTrip(id: FileId, suffix: string)
    ensures Recover(EditName(id, suffix)) == Edit(id) <==> id != "" && NoUnderscore(id)
  {
    EditParses(id, suffix);
  }

  function NameFound(parent: FileId, code: string): Recovered {
    if code == "" then Ignored else if Decode(code).None? then Undecodable else Create(parent, Decode(code).value)
  }

  /** What the create pattern finds. */
  lemma CreateParses(parent: FileId, name: Bytes, suffix: string)
    ensures var r := Recover(CreateName(parent, name, suffix)); r.Create? ==> r.parent == FirstRun(parent) != ""
    ensures parent != "" && NoUnderscore(parent) ==>
      Recover(CreateName(parent, name, suffix)) == NameFound(parent, FirstRun(Encode(name)))
  {
    hide Encode, Decode, After, FirstRun;
    var code := Encode(name);
    var tail := code + "_" + suffix;
    var rest := parent + "_" + tail;
    NoEdit(rest);
    AfterPrefix("create_", rest);
    RunOf(parent, tail);
    RunOf(code, suffix);
    if parent != "" && NoUnderscore(parent) {
      RunIff(rest, parent, tail);
    }
    assert |FirstRun(code)| < |tail|;
  }

  /** A create journal comes back, whatever the suffix, exactly when neither part is empty
      and neither the parent's id nor the encoded name has an underscore. */
  lemma CreateRoundTrip(parent: FileId, name: Bytes, suffix: string)
    ensures Recover(CreateName(parent, name, suffix)) == Create(parent, name)
      <==> parent != "" && NoUnderscore(parent) && name != [] && NoUnderscore(Encode(name))
  {
    hide Encode, Decode, Recover, CreateName;
    var code := Encode(name);
    CreateParses(parent, name, suffix);
    DecodeEncode(name);
    EncodeLength(name);
    if FirstRun(code) != code {
      ShorterDiffers(name, FirstRun(code));
    }
  }

  lemma NoEdit(rest: string)
    ensures After("edit_", "create_" + rest).None?
  {
    assert ("create_" + rest)[0] == 'c';
  }
}
