/** `ReadTextFileContent` (pkg/util/util.go) and its twin `readTextFileContent`
    (util.go): the bytes of a text file become a UTF-8 string. A leading byte
    order mark is cut off, BOM-less valid UTF-8 is kept as it is, and only
    other input is handed to the GBK decoder. Reading the file and the GBK
    decoder itself are inputs of the model. */
module TextReader {
  import opened Wrappers
  import opened Utf8

  const Bom: seq<byte> := [0xEF, 0xBB, 0xBF]
  const BomRune: char := '\U{FEFF}'

  predicate HasBom(bs: seq<byte>) {
    |bs| >= 3 && bs[..3] == Bom
  }

  /** The decoded bytes, given the outcome of `os.ReadFile` and a GBK
      decoder. A read error or a decoder error is returned as the error. */
  function ReadText(file: Result<seq<byte>>, gbk: seq<byte> -> Result<seq<byte>>): (r: Result<seq<byte>>)
    ensures file.Err? ==> r.Err?
    ensures file.Ok? && HasBom(file.value) ==> r == Ok(file.value[3..])
    ensures file.Ok? && !HasBom(file.value) && Valid(file.value) ==> r == Ok(file.value)
    ensures r.Err? && file.Ok? ==> !Valid(file.value) && !HasBom(file.value) && gbk(file.value).Err?
  {
    match file
    case Err(e) => Err(e)
    case Ok(data) =>
      if HasBom(data) then Ok(data[3..])
      else if Valid(data) then Ok(data)
      else
        var decoded :- gbk(data);
        Ok(decoded)
  }

  /** The file's text as runes, as the regular expressions and line scanner
      that consume it see it. */
  function ReadRunes(file: Result<seq<byte>>, gbk: seq<byte> -> Result<seq<byte>>): (r: Result<string>)
    ensures r.Ok? <==> ReadText(file, gbk).Ok?
  {
    var bs :- ReadText(file, gbk);
    Ok(Decode(bs))
  }

  /** The encoded text starts with the byte order mark exactly when its first
      rune is U+FEFF. */
  lemma EncodedBom(s: string)
    ensures HasBom(Encode(s)) <==> |s| > 0 && s[0] == BomRune
  {
    if |s| > 0 {
      var e := EncodeRune(s[0]);
      var rest := Encode(s[1..]);
      var bs := e + rest;
      EncodeRuneReads(s[0], rest);
      if s[0] == BomRune {
        EncodeBomRune();
        assert bs[..3] == Bom;
      } else if HasBom(bs) {
        BomCodePoint(bs);
        assert false;
      }
    }
  }

  lemma EncodeBomRune()
    ensures EncodeRune(BomRune) == Bom
  {
  }

  lemma BomCodePoint(bs: seq<byte>)
    requires HasBom(bs)
    ensures SeqLen(bs) == 3 && CodePoint(bs) == BomRune as int
  {
    assert bs[0] == 0xEF && bs[1] == 0xBB && bs[2] == 0xBF;
  }

  /** Text stored as UTF-8 without a byte order mark reads back unchanged,
      and the GBK decoder is never consulted for it. */
  lemma ReadPlainUtf8(s: string, gbk: seq<byte> -> Result<seq<byte>>)
    requires |s| == 0 || s[0] != BomRune
    ensures ReadText(Ok(Encode(s)), gbk) == Ok(Encode(s))
    ensures ReadRunes(Ok(Encode(s)), gbk) == Ok(s)
  {
    EncodedBom(s);
    DecodeEncode(s);
  }

  /** Text stored as UTF-8 behind a byte order mark reads back without the
      mark, and the GBK decoder is never consulted for it. */
  lemma ReadBomUtf8(s: string, gbk: seq<byte> -> Result<seq<byte>>)
    ensures ReadText(Ok(Bom + Encode(s)), gbk) == Ok(Encode(s))
    ensures ReadRunes(Ok(Bom + Encode(s)), gbk) == Ok(s)
  {
    var bs := Bom + Encode(s);
    assert bs[..3] == Bom && bs[3..] == Encode(s);
    DecodeEncode(s);
  }

  /** Only bytes that are not valid UTF-8 (and carry no mark) reach the GBK
      decoder: if the decoder's answer matters, the input was such bytes. */
  lemma GbkOnlyForInvalid(data: seq<byte>, gbk1: seq<byte> -> Result<seq<byte>>, gbk2: seq<byte> -> Result<seq<byte>>)
    requires ReadText(Ok(data), gbk1) != ReadText(Ok(data), gbk2)
    ensures !HasBom(data) && !Valid(data)
    ensures ReadText(Ok(data), gbk1) == gbk1(data)
  {
  }
}
