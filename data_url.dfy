/** `dataURLtoFile` of the login screen (frontend/src/App.jsx:29-36): it splits
    a `data:` URL at its commas, reads the MIME type out of the header with the
    regular expression `/:(.*?);/`, base64-decodes the payload with the
    browser's `atob`, and copies the decoded characters into a `Uint8Array`
    from the last index down to the first. `atob` is a browser built-in and is
    a parameter here: it yields the decoded string, or `None` when it throws. */
module DataUrl {
  import opened Wrappers
  import opened Js

  newtype byte = x: int | 0 <= x < 256

  /** What `new File([u8arr], filename, { type: mime })` holds. */
  datatype File = File(bytes: seq<byte>, name: string, mimeType: string)

  /** The two ways the conversion throws: the header has no `:...;` (so
      `match` returns `null` and indexing it throws a TypeError), or `atob`
      rejects the payload (an InvalidCharacterError). */
  datatype ConversionError = NoMimeType | NotBase64

  /** The `message` of the exception raised for each conversion error, in the
      wording of Chromium-based browsers. */
  function ErrorMessage(e: ConversionError): string {
    match e
    case NoMimeType => "Cannot read properties of null (reading '1')"
    case NotBase64 => "Failed to execute 'atob' on 'Window': The string to be decoded is not correctly encoded."
  }

  /** The first index of `c` in `s`, if any. */
  function IndexOf(s: string, c: char): (r: Option<nat>)
    ensures r.Some? ==> r.value < |s| && s[r.value] == c && c !in s[..r.value]
    ensures r.None? ==> c !in s
    decreases |s|
  {
    if s == [] then None
    else if s[0] == c then Some(0)
    else match IndexOf(s[1..], c)
      case None => None
      case Some(i) => assert s[..i + 1] == [s[0]] + s[1..][..i]; Some(i + 1)
  }

  /** `s.split(sep)` for a one-character separator. */
  function Split(s: string, sep: char): (parts: seq<string>)
    ensures |parts| >= 1
    decreases |s|
  {
    match IndexOf(s, sep)
    case None => [s]
    case Some(i) => [s[..i]] + Split(s[i + 1..], sep)
  }

  /** No part of a split holds the separator. */
  lemma {:induction false} SplitPartsFree(s: string, sep: char)
    ensures forall k :: 0 <= k < |Split(s, sep)| ==> sep !in Split(s, sep)[k]
    decreases |s|
  {
    match IndexOf(s, sep)
    case None =>
    case Some(i) =>
      SplitPartsFree(s[i + 1..], sep);
      var rest := Split(s[i + 1..], sep);
      assert Split(s, sep) == [s[..i]] + rest;
      forall k | 0 <= k < |Split(s, sep)|
        ensures sep !in Split(s, sep)[k]
      {
        if k > 0 {
          assert Split(s, sep)[k] == rest[k - 1];
        }
      }
  }

  /** `parts.join(sep)`, the inverse of `Split`. */
  function Join(parts: seq<string>, sep: char): string
    requires |parts| >= 1
    decreases |parts|
  {
    if |parts| == 1 then parts[0] else parts[0] + [sep] + Join(parts[1..], sep)
  }

  /** Splitting loses nothing: joining the parts with the separator gives the
      string back. */
  lemma {:induction false} JoinSplit(s: string, sep: char)
    ensures Join(Split(s, sep), sep) == s
    decreases |s|
  {
    match IndexOf(s, sep)
    case None =>
    case Some(i) =>
      var rest := Split(s[i + 1..], sep);
      var parts := [s[..i]] + rest;
      assert Split(s, sep) == parts;
      assert parts[0] == s[..i] && parts[1..] == rest;
      assert Join(parts, sep) == s[..i] + [sep] + Join(rest, sep);
      JoinSplit(s[i + 1..], sep);
      assert s == s[..i] + [sep] + s[i + 1..];
  }

  /** Splitting undoes joining, for parts free of the separator. */
  lemma {:induction false} SplitJoin(parts: seq<string>, sep: char)
    requires |parts| >= 1
    requires forall k :: 0 <= k < |parts| ==> sep !in parts[k]
    ensures Split(Join(parts, sep), sep) == parts
    decreases |parts|
  {
    if |parts| > 1 {
      var s := Join(parts, sep);
      var p := parts[0];
      var rest := Join(parts[1..], sep);
      assert s == p + ([sep] + rest);
      assert sep !in p;
      IndexOfAfter(p, sep, [sep] + rest);
      assert s[..|p|] == p && s[|p| + 1..] == rest;
      assert Split(s, sep) == [p] + Split(rest, sep);
      assert forall k :: 0 <= k < |parts| - 1 ==> sep !in parts[1..][k] by {
        forall k | 0 <= k < |parts| - 1 ensures sep !in parts[1..][k] {
          assert parts[1..][k] == parts[k + 1];
        }
      }
      SplitJoin(parts[1..], sep);
      assert parts == [p] + parts[1..];
    }
  }

  /** A character absent from `a` is found in `a + b` where `b` has it. */
  lemma {:induction false} IndexOfAfter(a: string, c: char, b: string)
    requires c !in a && IndexOf(b, c) == Some(0)
    ensures IndexOf(a + b, c) == Some(|a|)
    decreases |a|
  {
    if a != [] {
      assert (a + b)[1..] == a[1..] + b;
      IndexOfAfter(a[1..], c, b);
    }
  }

  /** Where the lazy `(.*?);` that begins at the start of `t` ends: the first
      `;` of `t`, unless a line terminator comes before it. */
  function LazyToSemicolon(t: string): (r: Option<nat>)
    ensures r.Some? ==> r.value < |t| && t[r.value] == ';'
    ensures r.Some? ==> forall k :: 0 <= k < r.value ==> t[k] != ';' && !IsLineTerminator(t[k])
    decreases |t|
  {
    if t == [] then None
    else if t[0] == ';' then Some(0)
    else if IsLineTerminator(t[0]) then None
    else match LazyToSemicolon(t[1..])
      case None => None
      case Some(j) => Some(j + 1)
  }

  /** `h.match(/:(.*?);/)[1]`: the leftmost `:` from which a `;` is reached
      without crossing a line terminator, and the text between them. `None`
      is the `null` that `match` returns when no such pair exists. */
  function MimeOf(h: string): Option<string>
    decreases |h|
  {
    match IndexOf(h, ':')
    case None => None
    case Some(i) =>
      match LazyToSemicolon(h[i + 1..])
      case Some(j) => Some(h[i + 1..i + 1 + j])
      case None => MimeOf(h[i + 1..])
  }

  /** In a header without line terminators, the MIME type is the text between
      the first `:` and the first `;` after it. */
  lemma {:induction false} MimeOfPlainHeader(h: string, i: nat, j: nat)
    requires forall k :: 0 <= k < |h| ==> !IsLineTerminator(h[k])
    requires i < j < |h| && h[i] == ':' && h[j] == ';'
    requires ':' !in h[..i] && ';' !in h[i + 1..j]
    ensures MimeOf(h) == Some(h[i + 1..j])
  {
    assert IndexOf(h, ':') == Some(i);
    SemicolonFirst(h[i + 1..], j - i - 1);
  }

  /** In a line-terminator-free text, the lazy match ends at the first `;`. */
  lemma {:induction false} SemicolonFirst(t: string, j: nat)
    requires j < |t| && t[j] == ';' && ';' !in t[..j]
    requires forall k :: 0 <= k < j ==> !IsLineTerminator(t[k])
    ensures LazyToSemicolon(t) == Some(j)
    decreases j
  {
    if j > 0 {
      assert t[0] in t[..j];
      assert t[1..][..j - 1] == t[1..j];
      SemicolonFirst(t[1..], j - 1);
    }
  }

  /** In a header without line terminators, there is no MIME type when no
      `;` follows the first `:` (or there is no `:` at all). */
  lemma {:induction false} MimeOfPlainHeaderNone(h: string)
    requires forall k :: 0 <= k < |h| ==> !IsLineTerminator(h[k])
    requires forall i :: 0 <= i < |h| && h[i] == ':' ==> ';' !in h[i + 1..]
    ensures MimeOf(h) == None
    decreases |h|
  {
    match IndexOf(h, ':')
    case None =>
    case Some(i) =>
      NoSemicolon(h[i + 1..]);
      var rest := h[i + 1..];
      forall i' | 0 <= i' < |rest| && rest[i'] == ':'
        ensures ';' !in rest[i' + 1..]
      {
        assert h[i + 1 + i'] == ':';
        assert rest[i' + 1..] == h[i + 1 + i' + 1..];
      }
      MimeOfPlainHeaderNone(rest);
  }

  lemma {:induction false} NoSemicolon(t: string)
    requires ';' !in t
    ensures LazyToSemicolon(t) == None
    decreases |t|
  {
    if t != [] {
      assert forall c :: c in t[1..] ==> c in t;
      NoSemicolon(t[1..]);
    }
  }

  /** Every character of `t` is in U+0020..U+007E. */
  predicate IsPrintableAscii(t: string) {
    forall k :: 0 <= k < |t| ==> ' ' <= t[k] <= '~'
  }

  /** `t` has no letter `A`..`Z`. */
  predicate HasNoUpper(t: string) {
    forall k :: 0 <= k < |t| ==> !('A' <= t[k] <= 'Z')
  }

  /** The `type` a Blob keeps for the option `{ type: t }`: lower-cased, or
      empty when `t` has a character outside U+0020..U+007E. */
  function BlobType(t: string): (r: string)
    ensures IsPrintableAscii(r) && HasNoUpper(r)
    ensures IsPrintableAscii(t) ==>
              |r| == |t| && forall k :: 0 <= k < |t| ==> AsciiLower(r[k]) == AsciiLower(t[k])
    ensures IsPrintableAscii(t) && HasNoUpper(t) ==> r == t
    ensures !IsPrintableAscii(t) ==> r == ""
  {
    if IsPrintableAscii(t) then LowerAscii(t) else ""
  }

  /** Normalising a Blob type twice changes nothing more. */
  lemma BlobTypeIdempotent(t: string)
    ensures BlobType(BlobType(t)) == BlobType(t)
  {
  }

  /** Two printable types that differ only in ASCII case give one Blob type. */
  lemma BlobTypeIgnoresCase(t: string, u: string)
    requires IsPrintableAscii(t) && IsPrintableAscii(u) && |t| == |u|
    requires forall k :: 0 <= k < |t| ==> AsciiLower(t[k]) == AsciiLower(u[k])
    ensures BlobType(t) == BlobType(u)
  {
    var r, q := BlobType(t), BlobType(u);
    forall k | 0 <= k < |r|
      ensures r[k] == q[k]
    {
      assert AsciiLower(r[k]) == r[k] && AsciiLower(q[k]) == q[k];
    }
  }

  /** What a `Uint8Array` stores for `c.charCodeAt(...)`: the code modulo 256. */
  function CodeByte(c: char): byte {
    ((c as int) % 256) as byte
  }

  /** The contents of the filled `Uint8Array`. */
  function Bytes(bstr: string): seq<byte>
  {
    seq(|bstr|, i requires 0 <= i < |bstr| => CodeByte(bstr[i]))
  }

  /** `arr[0]` of `dataurl.split(',')`: the header before the first comma. */
  function Header(dataurl: string): string {
    Split(dataurl, ',')[0]
  }

  /** `arr[1]` of `dataurl.split(',')` as `atob` receives it: the text between
      the first and second comma, or `"undefined"` when there is no comma. */
  function Payload(dataurl: string): string {
    var arr := Split(dataurl, ',');
    if |arr| > 1 then arr[1] else "undefined"
  }

  /** The specification of `dataURLtoFile`: the file it returns, or the error
      it throws. */
  function ToFile(dataurl: string, atob: string -> Option<string>, filename: string): Result<File, ConversionError> {
    match MimeOf(Header(dataurl))
    case None => Failure(NoMimeType)
    case Some(mime) =>
      match atob(Payload(dataurl))
      case None => Failure(NotBase64)
      case Some(bstr) => Success(File(Bytes(bstr), filename, BlobType(mime)))
  }

  /** The header is exactly the part before the first comma. */
  lemma HeaderBeforeComma(dataurl: string, c: nat)
    requires c < |dataurl| && dataurl[c] == ',' && ',' !in dataurl[..c]
    ensures Header(dataurl) == dataurl[..c]
  {
    assert IndexOf(dataurl, ',') == Some(c);
  }

  /** A URL with exactly one comma splits into the header before it and the
      payload after it. */
  lemma {:induction false} OneComma(h: string, payload: string)
    requires ',' !in h && ',' !in payload
    ensures Header(h + [','] + payload) == h
    ensures Payload(h + [','] + payload) == payload
  {
    var url := h + [','] + payload;
    assert url == h + ([','] + payload);
    IndexOfAfter(h, ',', [','] + payload);
    assert url[..|h|] == h && url[|h| + 1..] == payload;
    assert Split(url, ',') == [h] + Split(payload, ',');
  }

  /** The header `data:<mime>;base64` yields `<mime>`. */
  lemma {:induction false} Base64Header(mime: string)
    requires ':' !in mime && ';' !in mime
    requires forall k :: 0 <= k < |mime| ==> !IsLineTerminator(mime[k])
    ensures MimeOf("data:" + mime + ";base64") == Some(mime)
  {
    var h := "data:" + mime + ";base64";
    var j := 5 + |mime|;
    assert h[..4] == "data" && h[4] == ':' && h[j] == ';' && h[5..j] == mime;
    forall k | 0 <= k < |h|
      ensures !IsLineTerminator(h[k])
    {
      if k < 5 {
        assert h[k] == "data:"[k];
      } else if k < j {
        assert h[k] == mime[k - 5];
      } else {
        assert h[k] == ";base64"[k - j];
      }
    }
    MimeOfPlainHeader(h, 4, j);
  }

  /** A URL of the form the webcam produces, `data:<mime>;base64,<payload>`,
      converts to a file of the decoded payload typed with the MIME type. */
  lemma Base64DataUrl(mime: string, payload: string, atob: string -> Option<string>, filename: string)
    requires ':' !in mime && ';' !in mime && ',' !in mime && ',' !in payload
    requires forall k :: 0 <= k < |mime| ==> !IsLineTerminator(mime[k])
    requires atob(payload).Some?
    ensures ToFile("data:" + mime + ";base64," + payload, atob, filename)
            == Success(File(Bytes(atob(payload).value), filename, BlobType(mime)))
  {
    var h := "data:" + mime + ";base64";
    assert ',' !in h by {
      assert forall x :: x in h ==> x in "data:" || x in mime || x in ";base64";
    }
    assert "data:" + mime + ";base64," + payload == h + [','] + payload;
    OneComma(h, payload);
    Base64Header(mime);
  }

  /** The same URL with a payload `atob` rejects throws its error instead. */
  lemma Base64DataUrlNotDecoded(mime: string, payload: string, atob: string -> Option<string>, filename: string)
    requires ':' !in mime && ';' !in mime && ',' !in mime && ',' !in payload
    requires forall k :: 0 <= k < |mime| ==> !IsLineTerminator(mime[k])
    requires atob(payload).None?
    ensures ToFile("data:" + mime + ";base64," + payload, atob, filename) == Failure(NotBase64)
  {
    var h := "data:" + mime + ";base64";
    assert ',' !in h by {
      assert forall x :: x in h ==> x in "data:" || x in mime || x in ";base64";
    }
    assert "data:" + mime + ";base64," + payload == h + [','] + payload;
    OneComma(h, payload);
    Base64Header(mime);
  }

  /** A URL whose part before the first comma has no `:` has no MIME type. */
  lemma NoColonNoMime(dataurl: string, atob: string -> Option<string>, filename: string)
    requires ':' !in Header(dataurl)
    ensures ToFile(dataurl, atob, filename) == Failure(NoMimeType)
  {
    assert IndexOf(Header(dataurl), ':').None?;
  }

  /** `dataURLtoFile(dataurl, filename)`. The `while (n--)` loop writes every
      index once, from `n - 1` down to `0`; `order` records the indices in the
      order they are written. */
  method DataUrlToFile(dataurl: string, atob: string -> Option<string>, filename: string)
      returns (r: Result<File, ConversionError>, ghost order: seq<nat>)
    ensures r == ToFile(dataurl, atob, filename)
    ensures r.Success? ==> |order| == |r.value.bytes| && forall k :: 0 <= k < |order| ==> order[k] == |order| - 1 - k
  {
    order := [];
    var mime := MimeOf(Header(dataurl));
    if mime.None? {
      return Failure(NoMimeType), order;
    }
    var decoded := atob(Payload(dataurl));
    if decoded.None? {
      return Failure(NotBase64), order;
    }
    var bstr := decoded.value;
    var n := |bstr|;
    var u8arr := new byte[n];
    while n > 0
      invariant 0 <= n <= u8arr.Length == |bstr|
      invariant forall k :: n <= k < u8arr.Length ==> u8arr[k] == CodeByte(bstr[k])
      invariant |order| == u8arr.Length - n
      invariant forall k :: 0 <= k < |order| ==> order[k] == u8arr.Length - 1 - k
    {
      n := n - 1;
      u8arr[n] := CodeByte(bstr[n]);
      order := order + [n];
    }
    assert u8arr[..] == Bytes(bstr);
    r := Success(File(u8arr[..], filename, BlobType(mime.value)));
  }
}
