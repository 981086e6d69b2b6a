/** Base 64 data URLs (RFC 2397, section 3): the one the image generator
    builds from an inline image part, and the blob `base64ToBlob` recovers
    from such a URL. Both copies of `base64ToBlob` (ResultDisplay and
    QrCodeModal) are proved against `BlobOf`. */
module DataUrl {
  import opened Outcomes
  import opened Text
  import opened Base64

  const BASE64_MARKER := ";base64,"

  /** A blob's `type` and bytes; `new Blob([bytes], { type })` sets the type
      through `BlobType`. */
  datatype Blob = Blob(contentType: string, bytes: seq<byte>)

  predicate IsPrintableAscii(c: char) {
    ' ' <= c <= '~'
  }

  predicate IsAsciiUpper(c: char) {
    'A' <= c <= 'Z'
  }

  function AsciiLower(c: char): char {
    if IsAsciiUpper(c) then (c as int + 32) as char else c
  }

  /** Every character ASCII-lowercased. */
  function LowerAscii(t: string): (r: string)
    ensures |r| == |t|
    ensures forall i :: 0 <= i < |t| ==> r[i] == AsciiLower(t[i])
  {
    if t == [] then [] else [AsciiLower(t[0])] + LowerAscii(t[1..])
  }

  /** A type the Blob constructor keeps as it is: printable ASCII, no upper-case letter. */
  predicate IsNormalType(t: string) {
    forall i :: 0 <= i < |t| ==> IsPrintableAscii(t[i]) && !IsAsciiUpper(t[i])
  }

  /** The `type` option as the Blob and File constructors of the W3C File API
      store it: the empty string when some character lies outside U+0020 to
      U+007E, otherwise the text in ASCII lower case. */
  function BlobType(t: string): (r: string)
    ensures IsNormalType(r)
    ensures r == "" || |r| == |t|
  {
    if forall i :: 0 <= i < |t| ==> IsPrintableAscii(t[i]) then LowerAscii(t) else ""
  }

  /** A type already in normal form is stored unchanged. */
  lemma {:induction false} BlobTypeOfNormal(t: string)
    requires IsNormalType(t)
    ensures BlobType(t) == t
  {
    var r := LowerAscii(t);
    assert forall i :: 0 <= i < |t| ==> r[i] == t[i];
  }

  /** Storing a stored type again changes nothing: a `File` made from a blob
      with `{ type: blob.type }` has the blob's type. */
  lemma {:induction false} BlobTypeIdempotent(t: string)
    ensures BlobType(BlobType(t)) == BlobType(t)
  {
    BlobTypeOfNormal(BlobType(t));
  }

  /** `` `data:${mimeType};base64,${data}` `` */
  function Build(mimeType: string, data: string): (url: string)
    ensures StartsWith(url, "data:" + mimeType)
    ensures EndsWith(url, BASE64_MARKER + data)
  {
    "data:" + mimeType + BASE64_MARKER + data
  }

  /** `Uint8Array` element assignment keeps the low eight bits of the character code. */
  function ByteOfCode(c: char): byte {
    (c as int % 256) as byte
  }

  /** The `Uint8Array` filled from a binary string, one element per character. */
  function BytesOf(raw: string): (bytes: seq<byte>)
    ensures |bytes| == |raw|
    ensures forall i :: 0 <= i < |raw| ==> bytes[i] == ByteOfCode(raw[i])
  {
    seq(|raw|, i requires 0 <= i < |raw| => ByteOfCode(raw[i]))
  }

  /** Reading a binary string back gives the bytes it was made from. */
  lemma {:induction false} BytesOfBinaryString(bytes: seq<byte>)
    ensures BytesOf(BinaryString(bytes)) == bytes
  {
    var back := BytesOf(BinaryString(bytes));
    forall i | 0 <= i < |bytes| ensures back[i] == bytes[i] {
      assert BinaryString(bytes)[i] as int == bytes[i] as int;
    }
  }

  /** An array filled element by element from the character codes holds `BytesOf`. */
  lemma {:induction false} BytesOfFilled(raw: string, bytes: seq<byte>)
    requires |bytes| == |raw|
    requires forall k :: 0 <= k < |raw| ==> bytes[k] == ByteOfCode(raw[k])
    ensures bytes == BytesOf(raw)
  {
  }

  /** The checks `base64ToBlob` makes before decoding: splitting on `;base64,`
      must give exactly two pieces, and the first piece must have a non-empty
      text after its first ':'. The result is that content type and the
      second piece, the base 64 payload. */
  function Header(url: string): (r: Option<(string, string)>)
    ensures r.Some? <==> |Split(url, BASE64_MARKER)| == 2 && |Split(Split(url, BASE64_MARKER)[0], ":")| >= 2
                         && Split(Split(url, BASE64_MARKER)[0], ":")[1] != ""
    ensures r.Some? ==> r.value.0 != "" && forall i :: 0 <= i < |r.value.0| ==> r.value.0[i] != ':'
  {
    var parts := Split(url, BASE64_MARKER);
    if |parts| != 2 then None
    else
      var head := Split(parts[0], ":");
      if |head| < 2 || head[1] == "" then None
      else
        NoSingleCharOccurrence(head[1], ':');
        Some((head[1], parts[1]))
  }

  /** Where the header's two parts sit in the URL: the URL is a prefix, the
      `;base64,` marker and the payload, with no other marker; the content type
      follows the prefix's first ':' and runs to its second ':' or to its end. */
  lemma {:induction false} HeaderSplitsUrl(url: string)
    requires Header(url).Some?
    ensures var (contentType, payload) := Header(url).value;
            exists prefix ::
              url == prefix + BASE64_MARKER + payload
              && IndexOf(prefix, BASE64_MARKER) == None && IndexOf(payload, BASE64_MARKER) == None
              && SecondField(prefix, contentType)
  {
    var parts := Split(url, BASE64_MARKER);
    assert url == parts[0] + BASE64_MARKER + parts[1];
    SecondFieldOfSplit(parts[0]);
  }

  /** `field` is the text after the first ':' of `s`, up to the next ':' or the end. */
  ghost predicate SecondField(s: string, field: string) {
    exists before, after :: SecondFieldBetween(s, before, field, after)
  }

  /** `s` is `before`, ':', `field`, then `after`, which is empty or starts
      with ':'; neither `before` nor `field` holds a ':'. */
  predicate SecondFieldBetween(s: string, before: string, field: string, after: string) {
    s == before + ":" + field + after
    && (forall i :: 0 <= i < |before| ==> before[i] != ':')
    && (forall i :: 0 <= i < |field| ==> field[i] != ':')
    && (after == "" || after[0] == ':')
  }

  /** `s.split(':')[1]`, when it exists, is the second field of `s`. */
  lemma {:induction false} SecondFieldOfSplit(s: string)
    requires |Split(s, ":")| >= 2
    ensures SecondField(s, Split(s, ":")[1])
  {
    var head := Split(s, ":");
    NoSingleCharOccurrence(head[0], ':');
    NoSingleCharOccurrence(head[1], ':');
    JoinSecondField(head);
  }

  /** Pieces joined with ':', the first two free of ':', have the second piece as second field. */
  lemma {:induction false} JoinSecondField(pieces: seq<string>)
    requires |pieces| >= 2
    requires forall i :: 0 <= i < |pieces[0]| ==> pieces[0][i] != ':'
    requires forall i :: 0 <= i < |pieces[1]| ==> pieces[1][i] != ':'
    ensures SecondField(Join(pieces, ":"), pieces[1])
  {
    var rest := pieces[1..];
    var after := if |rest| > 1 then ":" + Join(rest[1..], ":") else "";
    JoinFirst(pieces, ":");
    JoinFirst(rest, ":");
    var s := Join(pieces, ":");
    assert s == pieces[0] + ":" + (pieces[1] + after);
    assert s == pieces[0] + ":" + pieces[1] + after;
    SecondFieldIntro(pieces[0], pieces[1], after);
  }

  /** The witnesses of `SecondField`, given outright. */
  lemma {:induction false} SecondFieldIntro(before: string, field: string, after: string)
    requires forall i :: 0 <= i < |before| ==> before[i] != ':'
    requires forall i :: 0 <= i < |field| ==> field[i] != ':'
    requires after == "" || after[0] == ':'
    ensures SecondField(before + ":" + field + after, field)
  {
    assert SecondFieldBetween(before + ":" + field + after, before, field, after);
  }

  /** The first piece, the separator, then the rest joined. */
  lemma {:induction false} JoinFirst(pieces: seq<string>, sep: string)
    requires |pieces| >= 1
    ensures Join(pieces, sep) == pieces[0] + (if |pieces| > 1 then sep + Join(pieces[1..], sep) else "")
  {
  }

  /** What `base64ToBlob` returns: `None` stands for `null`, whether the
      function returned it directly or its catch block did after `atob` threw. */
  function BlobOf(url: string): Option<Blob>
  {
    match Header(url)
    case None => None
    case Some((contentType, payload)) =>
      match Atob(payload)
      case None => None
      case Some(raw) => Some(Blob(BlobType(contentType), BytesOf(raw)))
  }

  /** A string in which a one-character pattern does not occur holds no such character. */
  lemma {:induction false} NoSingleCharOccurrence(s: string, c: char)
    requires IndexOf(s, [c]) == None
    ensures forall i :: 0 <= i < |s| ==> s[i] != c
  {
    forall i | 0 <= i < |s| ensures s[i] != c {
      assert !OccursAt(s, [c], i);
      assert s[i..i + 1] == [c] <==> s[i] == c;
    }
  }

  /** Round trip with the data URL of geminiService.ts: for a MIME type that is
      non-empty and holds neither ':' nor the `;base64,` marker, and a payload
      `atob` accepts, `base64ToBlob` recovers that MIME type, as the Blob
      constructor stores it, and the payload's decoded bytes. */
  lemma {:induction false} BlobOfBuild(mimeType: string, data: string)
    requires mimeType != ""
    requires forall i :: 0 <= i < |mimeType| ==> mimeType[i] != ':'
    requires IndexOf(mimeType, BASE64_MARKER) == None
    requires Atob(data).Some?
    ensures BlobOf(Build(mimeType, data)).Some?
    ensures BlobOf(Build(mimeType, data)).value.contentType == BlobType(mimeType)
    ensures BlobOf(Build(mimeType, data)).value.bytes == BytesOf(Atob(data).value)
  {
    forall i | 0 <= i < |data| ensures data[i] != ';' {
      AtobAcceptsOnlyBase64Text(data, i);
    }
    HeaderOfBuild(mimeType, data);
  }

  /** The header checks of `base64ToBlob` pass on a URL built from a MIME type
      without ':' or the marker and a payload without ';', and give back both. */
  lemma {:induction false} HeaderOfBuild(mimeType: string, data: string)
    requires mimeType != ""
    requires forall i :: 0 <= i < |mimeType| ==> mimeType[i] != ':'
    requires IndexOf(mimeType, BASE64_MARKER) == None
    requires forall i :: 0 <= i < |data| ==> data[i] != ';'
    ensures Header(Build(mimeType, data)) == Some((mimeType, data))
  {
    var head := "data:" + mimeType;
    assert BASE64_MARKER[0] == ';';
    NoFirstCharNoOccurrence(data, BASE64_MARKER);
    PrefixKeepsNoOccurrence("data:", mimeType, BASE64_MARKER);
    assert Build(mimeType, data) == head + BASE64_MARKER + data;
    SplitAtUniqueSeparator(head, BASE64_MARKER, data);
    assert head == "data" + ":" + mimeType;
    NoFirstCharNoOccurrence("data", ":");
    NoFirstCharNoOccurrence(mimeType, ":");
    SplitAtUniqueSeparator("data", ":", mimeType);
  }

  /** The full round trip from bytes: a data URL carrying `Encode(bytes)` gives back
      exactly `bytes`, with the stored MIME type as the blob's type; a type in
      normal form (printable ASCII without capitals, as `image/png`) comes back
      unchanged. */
  lemma {:induction false} BlobOfEncoded(mimeType: string, bytes: seq<byte>)
    requires mimeType != ""
    requires forall i :: 0 <= i < |mimeType| ==> mimeType[i] != ':'
    requires IndexOf(mimeType, BASE64_MARKER) == None
    ensures BlobOf(Build(mimeType, Encode(bytes))) == Some(Blob(BlobType(mimeType), bytes))
    ensures IsNormalType(mimeType) ==> BlobOf(Build(mimeType, Encode(bytes))) == Some(Blob(mimeType, bytes))
  {
    AtobEncode(bytes);
    BlobOfBuild(mimeType, Encode(bytes));
    BytesOfBinaryString(bytes);
    if IsNormalType(mimeType) {
      BlobTypeOfNormal(mimeType);
    }
  }
}
