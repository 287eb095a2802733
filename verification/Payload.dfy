// QR payloads: <attendee id>.<token>.<hex MAC of "id.token">, built and verified.
module Payload {
  import opened Common
  import opened Text

  type Byte = n: int | 0 <= n < 256

  // What the payload code takes from elsewhere: the UUID printer and parser, a keyed MAC and a
  // token hash. The MAC and the hash are left uninterpreted.
  datatype Primitives = Primitives(
    show: Id -> string,
    parse: string -> Option<Id>,
    mac: (string, string) -> seq<Byte>,
    hash: string -> string)
  {
    ghost predicate Valid() {
      && (forall id: Id :: show(id) != "" && '.' !in show(id) && parse(show(id)) == Some(id))
      && (forall key: string, msg: string :: mac(key, msg) != [])
    }
  }

  // ---------- hexadecimal ----------

  function Digit(n: int): (c: char)
    requires 0 <= n < 16
    ensures c != '.'
  {
    if n < 10 then ('0' as int + n) as char else ('a' as int + n - 10) as char
  }

  function Undigit(c: char): (n: Option<int>)
    ensures n.Some? ==> 0 <= n.value < 16
  {
    if '0' <= c <= '9' then Some(c as int - '0' as int)
    else if 'a' <= c <= 'f' then Some(c as int - 'a' as int + 10)
    else if 'A' <= c <= 'F' then Some(c as int - 'A' as int + 10)
    else None
  }

  function HexEncode(bytes: seq<Byte>): string {
    if bytes == [] then ""
    else [Digit(bytes[0] / 16), Digit(bytes[0] % 16)] + HexEncode(bytes[1..])
  }

  // Accepts either case, refuses odd lengths and other characters.
  function HexDecode(s: string): Option<seq<Byte>> {
    if s == "" then Some([])
    else if |s| == 1 then None
    else
      match (Undigit(s[0]), Undigit(s[1]), HexDecode(s[2..])) {
        case (Some(hi), Some(lo), Some(rest)) => Some([16 * hi + lo] + rest)
        case _ => None
      }
  }

  lemma {:induction false} HexRoundTrip(bytes: seq<Byte>)
    ensures HexDecode(HexEncode(bytes)) == Some(bytes)
    ensures '.' !in HexEncode(bytes)
    ensures |HexEncode(bytes)| == 2 * |bytes|
  {
    if bytes != [] {
      HexRoundTrip(bytes[1..]);
      assert HexEncode(bytes)[2..] == HexEncode(bytes[1..]);
      assert bytes == [bytes[0]] + bytes[1..];
    }
  }

  // ---------- payloads ----------

  datatype Verified = Verified(attendee: Id, rawToken: string)
  datatype PayloadError = Malformed | Forged

  function BuildPayload(attendee: Id, rawToken: string, secret: string, p: Primitives): string {
    var msg := p.show(attendee) + "." + rawToken;
    msg + "." + HexEncode(p.mac(secret, msg))
  }

  function VerifyPayload(payload: string, secret: string, p: Primitives): Reply<Verified, PayloadError> {
    var parts := Split(payload, '.');
    if |parts| != 3 || parts[0] == "" || parts[1] == "" || parts[2] == "" then Err(Malformed)
    else
      match p.parse(parts[0]) {
        case None => Err(Malformed)
        case Some(id) =>
          if HexDecode(parts[2]) == Some(p.mac(secret, parts[0] + "." + parts[1]))
          then Ok(Verified(id, parts[1]))
          else Err(Forged)
      }
  }

  // A payload is accepted exactly when it is three non-empty dot-free fields of which the first
  // names the attendee and the last is the MAC of the first two under this secret.
  ghost predicate Signed(payload: string, v: Verified, secret: string, p: Primitives, ref: string, tag: string) {
    && payload == ref + "." + v.rawToken + "." + tag
    && '.' !in ref && '.' !in v.rawToken && '.' !in tag
    && ref != "" && v.rawToken != "" && tag != ""
    && p.parse(ref) == Some(v.attendee)
    && HexDecode(tag) == Some(p.mac(secret, ref + "." + v.rawToken))
  }

  lemma SplitThree(a: string, b: string, c: string)
    requires '.' !in a && '.' !in b && '.' !in c
    ensures Split(a + "." + b + "." + c, '.') == [a, b, c]
  {
    assert a + "." + b + "." + c == a + ['.'] + (b + ['.'] + c);
    SplitAtFirst(a, b + ['.'] + c, '.');
    SplitAtFirst(b, c, '.');
    SplitAtFirst(c, "", '.');
  }

  lemma VerifyIffSigned(payload: string, v: Verified, secret: string, p: Primitives)
    ensures VerifyPayload(payload, secret, p) == Ok(v) <==>
            exists ref, tag :: Signed(payload, v, secret, p, ref, tag)
  {
    var parts := Split(payload, '.');
    if VerifyPayload(payload, secret, p) == Ok(v) {
      SplitFields(payload, '.');
      JoinSplit(payload, '.');
      assert parts[1..][1..] == [parts[2]];
      assert Join(parts[1..], '.') == parts[1] + "." + parts[2];
      assert payload == parts[0] + "." + (parts[1] + "." + parts[2]);
      assert payload == parts[0] + "." + parts[1] + "." + parts[2];
      assert Signed(payload, v, secret, p, parts[0], parts[2]);
    }
    if ref, tag :| Signed(payload, v, secret, p, ref, tag) {
      SplitThree(ref, v.rawToken, tag);
    }
  }

  lemma {:induction false} SplitsAtLeastOnce(s: string, sep: char)
    requires sep in s
    ensures |Split(s, sep)| >= 2
  {
    if s[0] != sep {
      SplitsAtLeastOnce(s[1..], sep);
    }
  }

  lemma {:induction false} SplitPrefixGrows(a: string, s: string, sep: char)
    ensures |Split(a + s, sep)| == |Split(a, sep)| + |Split(s, sep)| - 1
  {
    if a == "" {
      assert a + s == s;
    } else {
      SplitPrefixGrows(a[1..], s, sep);
      assert (a + s)[1..] == a[1..] + s;
    }
  }

  // A built payload reads back as what was signed exactly when the token is non-empty and has
  // no dot: a token with a dot yields too many fields, an empty one an empty field.
  lemma PayloadRoundTrip(attendee: Id, rawToken: string, secret: string, p: Primitives)
    requires p.Valid()
    ensures VerifyPayload(BuildPayload(attendee, rawToken, secret, p), secret, p)
              == Ok(Verified(attendee, rawToken))
            <==> rawToken != "" && '.' !in rawToken
  {
    var ref := p.show(attendee);
    var msg := ref + "." + rawToken;
    var tag := HexEncode(p.mac(secret, msg));
    HexRoundTrip(p.mac(secret, msg));
    if '.' in rawToken {
      var payload := BuildPayload(attendee, rawToken, secret, p);
      SplitsAtLeastOnce(rawToken, '.');
      SplitPrefixGrows(ref + ".", rawToken, '.');
      SplitSnoc(ref, '.', '.');
      SplitPrefixGrows(msg + ".", tag, '.');
      SplitSnoc(msg, '.', '.');
      assert |Split(payload, '.')| >= 4;
    } else {
      SplitThree(ref, rawToken, tag);
    }
  }

  // Every generated token (32 hex characters) is scannable.
  lemma GeneratedTokenScans(attendee: Id, random: seq<Byte>, secret: string, p: Primitives)
    requires p.Valid() && |random| == 16
    ensures VerifyPayload(BuildPayload(attendee, HexEncode(random), secret, p), secret, p)
              == Ok(Verified(attendee, HexEncode(random)))
  {
    HexRoundTrip(random);
    PayloadRoundTrip(attendee, HexEncode(random), secret, p);
  }
}
