/**
 * src/app/api/upload/route.ts: validation of an uploaded file against the
 * allow-list of its upload type, and the stored name and public URL it gets.
 * The random bytes are a parameter; writing the file is an outcome flag.
 */
module Upload {
  import opened Wrappers
  import opened Http
  import opened Schema
  import Text

  newtype byte = x: int | 0 <= x < 256

  /** The `file` form field: its name and its MIME type. */
  datatype File = File(name: string, mimeType: string)

  const Thumbnail := "thumbnail"
  const ProductKind := "product"

  const ThumbnailTypes := ["image/jpeg", "image/png", "image/webp"]
  const ProductTypes := ["application/zip", "application/x-zip-compressed", "application/pdf",
                         "application/x-msdownload", "application/octet-stream"]

  /**
   * The keys `type in allowedTypes` also accepts, inherited from
   * `Object.prototype`: their value has no `includes`, so the handler throws.
   */
  const InheritedKeys := {"constructor", "hasOwnProperty", "isPrototypeOf", "propertyIsEnumerable",
                          "toLocaleString", "toString", "valueOf", "__proto__", "__defineGetter__",
                          "__defineSetter__", "__lookupGetter__", "__lookupSetter__"}

  /** `allowedTypes[type]` for the two own keys. */
  function AllowedTypes(kind: string): seq<string>
    requires kind == Thumbnail || kind == ProductKind
  {
    if kind == Thumbnail then ThumbnailTypes else ProductTypes
  }

  // ---- The stored file name ----

  /** `[a-zA-Z0-9.-]` */
  predicate SafeChar(c: char) {
    Text.IsAsciiLower(c) || Text.IsAsciiUpper(c) || Text.IsDigit(c) || c == '.' || c == '-'
  }

  /** `name.replace(/[^a-zA-Z0-9.-]/g, "_")` */
  function Sanitize(name: string): (r: string)
    ensures |r| == |name|
    ensures forall i :: 0 <= i < |name| ==> r[i] == if SafeChar(name[i]) then name[i] else '_'
  {
    seq(|name|, i requires 0 <= i < |name| => if SafeChar(name[i]) then name[i] else '_')
  }

  /**
   * The sanitised name keeps every safe character, consists only of safe
   * characters and "_", has no path separator, and sanitising it again
   * changes nothing.
   */
  lemma SanitizeCorrect(name: string)
    ensures forall i :: 0 <= i < |name| && SafeChar(name[i]) ==> Sanitize(name)[i] == name[i]
    ensures forall c :: c in Sanitize(name) ==> SafeChar(c) || c == '_'
    ensures '/' !in Sanitize(name) && '\\' !in Sanitize(name)
    ensures Sanitize(Sanitize(name)) == Sanitize(name)
  {
    var r := Sanitize(name);
    forall c | c in r ensures SafeChar(c) || c == '_' {
      var i :| 0 <= i < |r| && r[i] == c;
    }
  }

  function HexDigit(n: int): (c: char)
    requires 0 <= n < 16
    ensures IsHexDigit(c)
  {
    "0123456789abcdef"[n]
  }

  predicate IsHexDigit(c: char) {
    Text.IsDigit(c) || 'a' <= c <= 'f'
  }

  function HexValue(c: char): int
    requires IsHexDigit(c)
  {
    if Text.IsDigit(c) then c as int - '0' as int else c as int - 'a' as int + 10
  }

  /** `randomBytes.toString("hex")`: two lowercase digits per byte, high nibble first. */
  function Hex(bytes: seq<byte>): (r: string)
    ensures |r| == 2 * |bytes|
    ensures forall c :: c in r ==> IsHexDigit(c)
  {
    if bytes == [] then ""
    else [HexDigit(bytes[0] as int / 16), HexDigit(bytes[0] as int % 16)] + Hex(bytes[1..])
  }

  /** Reads two hex digits per byte. */
  function Unhex(s: string): seq<byte>
    requires |s| % 2 == 0 && forall c :: c in s ==> IsHexDigit(c)
  {
    if s == [] then []
    else
      assert s[0] in s && s[1] in s;
      [(HexValue(s[0]) * 16 + HexValue(s[1])) as byte] + Unhex(s[2..])
  }

  lemma HexDigitValue(n: int)
    requires 0 <= n < 16
    ensures HexValue(HexDigit(n)) == n
  {
  }

  lemma Nibbles(b: int)
    requires 0 <= b < 256
    ensures 0 <= b / 16 < 16 && 0 <= b % 16 < 16 && (b / 16) * 16 + b % 16 == b
  {
  }

  /** Different random bytes give different names: the hex text decodes back to the bytes. */
  lemma {:induction false} UnhexHex(bytes: seq<byte>)
    ensures Unhex(Hex(bytes)) == bytes
  {
    if bytes != [] {
      var b := bytes[0] as int;
      var hi, lo := b / 16, b % 16;
      Nibbles(b);
      HexDigitValue(hi);
      HexDigitValue(lo);
      var h := Hex(bytes);
      assert h == [HexDigit(hi), HexDigit(lo)] + Hex(bytes[1..]);
      assert h[2..] == Hex(bytes[1..]);
      UnhexHex(bytes[1..]);
      assert (HexValue(h[0]) * 16 + HexValue(h[1])) as byte == bytes[0];
      assert bytes == [bytes[0]] + bytes[1..];
    }
  }

  /** The name the file is written under: 32 hex digits, "-", the sanitised original name. */
  function StoredName(bytes: seq<byte>, file: File): string
    requires |bytes| == 16
  {
    Hex(bytes) + "-" + Sanitize(file.name)
  }

  function UrlOf(kind: string, storedName: string): string {
    "/uploads/" + kind + "/" + storedName
  }

  /** The stored name stays inside the upload directory: it has no "/" and starts with 32 hex digits. */
  lemma StoredNameShape(bytes: seq<byte>, file: File)
    requires |bytes| == 16
    ensures var n := StoredName(bytes, file);
            && |n| == 33 + |file.name|
            && (forall i :: 0 <= i < 32 ==> IsHexDigit(n[i]))
            && n[32] == '-'
            && '/' !in n && '\\' !in n
  {
    var n := StoredName(bytes, file);
    var h := Hex(bytes);
    SanitizeCorrect(file.name);
    forall i | 0 <= i < 32 ensures IsHexDigit(n[i]) {
      assert n[i] == h[i];
      assert h[i] in h;
    }
    forall c | c in n ensures c != '/' && c != '\\' {
      var i :| 0 <= i < |n| && n[i] == c;
      if i < 32 {
        assert n[i] == h[i];
        assert h[i] in h;
      } else if i > 32 {
        assert n[i] == Sanitize(file.name)[i - 33];
      }
    }
  }

  // ---- The handler ----

  /**
   * POST. `bytes` are the 16 random bytes; `written` says whether
   * `writeFile` succeeded. The body is the public URL.
   */
  function Post(session: Option<SessionUser>, file: Option<File>, kind: Option<string>, bytes: seq<byte>,
                written: bool): (r: Reply<string>)
    requires |bytes| == 16
    ensures session.None? ==> r == Fail(Unauthorized)
    ensures session.Some? && file.None? ==> r == Fail(BadRequest)
    ensures session.Some? && file.Some? && !(Truthy(kind) && (kind.value in {Thumbnail, ProductKind} + InheritedKeys))
            ==> r == Fail(BadRequest)
    ensures session.Some? && file.Some? && Truthy(kind) && kind.value in InheritedKeys ==> r == Fail(ServerError)
    ensures r.status == OK <==>
              && session.Some? && file.Some? && Truthy(kind) && kind.value in {Thumbnail, ProductKind}
              && file.value.mimeType in AllowedTypes(kind.value) && written
    ensures r.status == OK ==> r.body == Some(UrlOf(kind.value, StoredName(bytes, file.value)))
    ensures r.status != OK ==> r.body.None?
  {
    if session.None? then Fail(Unauthorized)
    else if file.None? then Fail(BadRequest)
    else if !Truthy(kind) || kind.value !in {Thumbnail, ProductKind} + InheritedKeys then Fail(BadRequest)
    else if kind.value in InheritedKeys then Fail(ServerError)
    else if file.value.mimeType !in AllowedTypes(kind.value) then Fail(BadRequest)
    else if !written then Fail(ServerError)
    else Ok(UrlOf(kind.value, StoredName(bytes, file.value)))
  }

  /**
   * What an accepted upload is: a thumbnail is always an image and a product
   * file never is, and the URL points inside that kind's upload directory at
   * a name with no path separator.
   */
  lemma AcceptedUpload(session: Option<SessionUser>, file: Option<File>, kind: Option<string>, bytes: seq<byte>,
                       written: bool)
    requires |bytes| == 16
    requires Post(session, file, kind, bytes, written).status == OK
    ensures kind.value == Thumbnail ==> Text.StartsWith(file.value.mimeType, "image/")
    ensures kind.value == ProductKind ==> !Text.StartsWith(file.value.mimeType, "image/")
    ensures var url := Post(session, file, kind, bytes, written).body.value;
            var prefix := "/uploads/" + kind.value + "/";
            && Text.StartsWith(url, prefix)
            && '/' !in url[|prefix|..]
  {
    var prefix := "/uploads/" + kind.value + "/";
    var n := StoredName(bytes, file.value);
    var url := UrlOf(kind.value, n);
    if kind.value == ProductKind {
      var m := file.value.mimeType;
      assert m in ProductTypes;
      assert m[0] == 'a';
    }
    StoredNameShape(bytes, file.value);
    assert url == prefix + n;
    assert url[|prefix|..] == n;
  }
}
