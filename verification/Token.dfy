/** HS256 bearer tokens in the compact form of section 7.1 of RFC 7515: the printer of the load
    driver against the parser of the Django service. */
module Token {
  import opened Prelude
  import opened Base64Url
  import opened JsonData

  type Claims = map<string, Json>

  /** The library calls the two programs make: the keyed hash, the JSON printer and parser over
      UTF-8 bytes (None for text that is not JSON), and Python's `int(text)`. */
  datatype Library = Library(
    mac: (string, string) -> seq<Byte>,
    dumps: Json -> seq<Byte>,
    loads: seq<Byte> -> Option<Json>,
    parseInt: string -> Option<int>)

  const HEADER := Obj(map["alg" := Str("HS256"), "typ" := Str("JWT")])

  function SigningInput(lib: Library, claims: Claims): string {
    Encode(lib.dumps(HEADER)) + "." + Encode(lib.dumps(Obj(claims)))
  }

  function Sign(lib: Library, claims: Claims, secret: string): string {
    var input := SigningInput(lib, claims);
    input + "." + Encode(lib.mac(secret, input))
  }

  predicate Falsy(value: Json) {
    match value
    case Null => true
    case Bool(flag) => !flag
    case Int(number) => number == 0
    case Real(fraction) => fraction == 0.0
    case Str(text) => text == ""
    case Arr(items) => items == []
    case Obj(fields) => fields == map[]
  }

  function Truncate(x: real): int {
    if x >= 0.0 then x.Floor else -((-x).Floor)
  }

  /** `int(payload.get('exp', 0) or 0)`; None for the conversion's exception. */
  function Expiry(lib: Library, claims: Claims): Option<int> {
    if "exp" !in claims || Falsy(claims["exp"]) then Some(0)
    else
      match claims["exp"]
      case Bool(_) => Some(1)
      case Int(number) => Some(number)
      case Real(fraction) => Some(Truncate(fraction))
      case Str(text) => lib.parseInt(text)
      case _ => None
  }

  function Verify(lib: Library, token: string, secret: string, now: real): Option<Claims> {
    var parts := Split(token, '.');
    if |parts| != 3 then None else VerifyParts(lib, parts[0], parts[1], parts[2], secret, now)
  }

  function VerifyParts(lib: Library, head: string, body: string, signature: string, secret: string, now: real): Option<Claims> {
    var input := head + "." + body;
    if !Ascii(input) || Decode(signature) != Some(lib.mac(secret, input)) then None
    else
      match Decode(body)
      case None => None
      case Some(bytes) => Accept(lib, lib.loads(bytes), now)
  }

  /** The payload must be an object, its expiry a number, and not past. */
  function Accept(lib: Library, payload: Option<Json>, now: real): Option<Claims> {
    match payload
    case Some(Obj(claims)) =>
      (match Expiry(lib, claims)
       case None => None
       case Some(exp) => if exp != 0 && now > exp as real then None else Some(claims))
    case _ => None
  }

  lemma SignedIsAccepted(lib: Library, claims: Claims, secret: string, now: real)
    requires lib.loads(lib.dumps(Obj(claims))) == Some(Obj(claims))
    ensures Verify(lib, Sign(lib, claims, secret), secret, now) == Accept(lib, Some(Obj(claims)), now)
  {
    var head, body := Encode(lib.dumps(HEADER)), Encode(lib.dumps(Obj(claims)));
    var digest := lib.mac(secret, head + "." + body);
    DotFree(lib.dumps(HEADER));
    DotFree(lib.dumps(Obj(claims)));
    DotFree(digest);
    SplitThree(head, body, Encode(digest), '.');
    Base64Url.RoundTrip(digest);
    Base64Url.RoundTrip(lib.dumps(Obj(claims)));
    AsciiInput(head, body);
    assert Verify(lib, Sign(lib, claims, secret), secret, now) == VerifyParts(lib, head, body, Encode(digest), secret, now);
  }

  /** What the claims say about when the token ends: never, at a time, or nothing that can be read. */
  datatype End = Never | At(time: int) | Unreadable

  /** A number ends the token at itself, cut towards zero, true counting as 1; a text at the number that it reads as;
      what Python takes for false, and 0, means never; a filled list or object cannot be read. */
  ghost predicate EndsAt(lib: Library, claims: Claims, end: End) {
    if "exp" !in claims then end == Never
    else
      match claims["exp"]
      case Null => end == Never
      case Bool(flag) => end == if flag then At(1) else Never
      case Int(n) => end == if n != 0 then At(n) else Never
      case Real(x) =>
        (match end
         case Never => -1.0 < x < 1.0
         case At(n) => n != 0 && (if x > 0.0 then n as real <= x < n as real + 1.0 else n as real - 1.0 < x <= n as real)
         case Unreadable => false)
      case Str(text) =>
        end == if text == "" || lib.parseInt(text) == Some(0) then Never
               else if lib.parseInt(text).Some? then At(lib.parseInt(text).value) else Unreadable
      case Arr(items) => end == if items == [] then Never else Unreadable
      case Obj(fields) => end == if fields == map[] then Never else Unreadable
  }

  lemma ExpiryIsEnd(lib: Library, claims: Claims, end: End)
    requires EndsAt(lib, claims, end)
    ensures Expiry(lib, claims) == (match end case Never => Some(0) case At(time) => Some(time) case Unreadable => None)
    ensures end.At? ==> end.time != 0
  {
  }

  lemma AcceptedUntilEnd(lib: Library, claims: Claims, now: real, end: End)
    requires EndsAt(lib, claims, end)
    ensures Accept(lib, Some(Obj(claims)), now)
            == match end
               case Never => Some(claims)
               case At(time) => if now <= time as real then Some(claims) else None
               case Unreadable => None
  {
    ExpiryIsEnd(lib, claims, end);
  }

  /** Signing and verifying gives the same claims back, exactly as long as the token has not ended; if its end cannot
      be read it is refused. */
  lemma RoundTrip(lib: Library, claims: Claims, secret: string, now: real, end: End)
    requires lib.loads(lib.dumps(Obj(claims))) == Some(Obj(claims)) && EndsAt(lib, claims, end)
    ensures Verify(lib, Sign(lib, claims, secret), secret, now)
            == match end
               case Never => Some(claims)
               case At(time) => if now <= time as real then Some(claims) else None
               case Unreadable => None
  {
    SignedIsAccepted(lib, claims, secret, now);
    AcceptedUntilEnd(lib, claims, now, end);
  }

  /** Every claims object has such an end. */
  lemma HasEnd(lib: Library, claims: Claims) returns (end: End)
    ensures EndsAt(lib, claims, end)
  {
    end := Never;
    if "exp" in claims {
      match claims["exp"]
      case Null =>
      case Bool(flag) => end := if flag then At(1) else Never;
      case Int(n) => end := if n != 0 then At(n) else Never;
      case Real(x) =>
        if x >= 1.0 {
          end := At(x.Floor);
        } else if x <= -1.0 {
          end := At(-((-x).Floor));
        }
      case Str(text) =>
        if text != "" && lib.parseInt(text) != Some(0) {
          end := if lib.parseInt(text).Some? then At(lib.parseInt(text).value) else Unreadable;
        }
      case Arr(items) => end := if items == [] then Never else Unreadable;
      case Obj(fields) => end := if fields == map[] then Never else Unreadable;
    }
  }

  lemma AsciiInput(head: string, body: string)
    requires Ascii(head) && Ascii(body)
    ensures Ascii(head + "." + body)
  {
  }

  /** What a presented token needs, printed by whom it may be: the keyed hash of its first two parts as its third, and
      as its second the text of a claims object that has not ended. */
  lemma AcceptedIff(lib: Library, head: string, body: string, signature: string, secret: string, now: real,
                    claims: Claims, end: End)
    requires '.' !in head && '.' !in body && '.' !in signature && EndsAt(lib, claims, end)
    ensures Verify(lib, head + "." + body + "." + signature, secret, now) == Some(claims)
            <==> && Ascii(head) && Ascii(body)
                 && Decode(signature) == Some(lib.mac(secret, head + "." + body))
                 && Decode(body).Some? && lib.loads(Decode(body).value) == Some(Obj(claims))
                 && end != Unreadable && (end.At? ==> now <= end.time as real)
  {
    SplitThree(head, body, signature, '.');
    if Ascii(head + "." + body) {
      assert forall k :: 0 <= k < |head| ==> (head + "." + body)[k] == head[k];
      assert forall k :: 0 <= k < |body| ==> (head + "." + body)[|head| + 1 + k] == body[k];
    } else if Ascii(head) && Ascii(body) {
      AsciiInput(head, body);
    }
    AcceptedUntilEnd(lib, claims, now, end);
  }

  /** No other text is accepted. */
  lemma AcceptedHasParts(lib: Library, token: string, secret: string, now: real)
    returns (head: string, body: string, signature: string)
    requires Verify(lib, token, secret, now).Some?
    ensures token == head + "." + body + "." + signature && '.' !in head && '.' !in body && '.' !in signature
  {
    var parts := Split(token, '.');
    JoinSplit(token, '.');
    JoinThree(parts, '.');
    head, body, signature := parts[0], parts[1], parts[2];
  }

  /** Putting another header or body before the signature of a signed token, or verifying under
      another secret, is refused unless the keyed hash agrees on both inputs. */
  lemma ForgedIsRefused(lib: Library, claims: Claims, secret: string, now: real,
                        head: string, body: string, otherSecret: string)
    requires '.' !in head && '.' !in body
    requires lib.mac(otherSecret, head + "." + body) != lib.mac(secret, SigningInput(lib, claims))
    ensures var signature := Encode(lib.mac(secret, SigningInput(lib, claims)));
            Verify(lib, head + "." + body + "." + signature, otherSecret, now) == None
  {
    var digest := lib.mac(secret, SigningInput(lib, claims));
    DotFree(digest);
    SplitThree(head, body, Encode(digest), '.');
    Base64Url.RoundTrip(digest);
  }
}
