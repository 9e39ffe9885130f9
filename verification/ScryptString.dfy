/** The self-describing scrypt hash string: printed when a token is minted, parsed to verify it. */
module ScryptString {
  import opened Wrappers
  import opened Text
  import opened Base64
  import Decimal

  const SCRYPT_N := 32768
  const SCRYPT_R := 8
  const SCRYPT_P := 1
  const SCRYPT_DKLEN := 32

  /** Everything the string records. */
  datatype HashRecord = HashRecord(n: nat, r: nat, p: nat, salt: seq<Byte>, digest: seq<Byte>)

  /** The scrypt function: token, salt, N, r, p, output length; it may refuse its parameters. */
  type Kdf = (string, seq<Byte>, nat, nat, nat, nat) -> Option<seq<Byte>>

  // ----- printing -------------------------------------------------------------------

  function PrintParams(h: HashRecord): string {
    "N=" + Decimal.Print(h.n) + ",r=" + Decimal.Print(h.r) + ",p=" + Decimal.Print(h.p)
  }

  function PrintHash(h: HashRecord): string {
    "$scrypt$" + PrintParams(h) + "$" + Encode(h.salt) + "$" + Encode(h.digest)
  }

  /** `_scrypt_hash` for a given salt. */
  function ScryptHash(kdf: Kdf, token: string, salt: seq<Byte>): Option<string> {
    match kdf(token, salt, SCRYPT_N, SCRYPT_R, SCRYPT_P, SCRYPT_DKLEN)
    case None => None
    case Some(dk) => Some(PrintHash(HashRecord(SCRYPT_N, SCRYPT_R, SCRYPT_P, salt, dk)))
  }

  // ----- parsing --------------------------------------------------------------------

  /** `int(v)` of what follows the first `=`; no `=` leaves an empty string, which is no number. */
  function ParseParam(kv: string): Option<(string, nat)> {
    match Find(kv, "=", 0)
    case None => None
    case Some(i) =>
      match Decimal.Parse(kv[i + 1..])
      case None => None
      case Some(v) => Some((kv[..i], v))
  }

  function ParseParams(kvs: seq<string>): Option<map<string, nat>> {
    if kvs == [] then Some(map[])
    else match (ParseParams(kvs[..|kvs| - 1]), ParseParam(kvs[|kvs| - 1]))
      case (Some(m), Some(kv)) => Some(m[kv.0 := kv.1])
      case _ => None
  }

  function ParseHash(stored: string): Option<HashRecord> {
    var parts := Split(stored, "$");
    if |parts| != 5 || parts[1] != "scrypt" then None
    else match (ParseParams(Split(parts[2], ",")), Decode(parts[3]), Decode(parts[4]))
      case (Some(m), Some(salt), Some(digest)) =>
        if "N" in m && "r" in m && "p" in m then Some(HashRecord(m["N"], m["r"], m["p"], salt, digest)) else None
      case _ => None
  }

  predicate ScryptVerify(kdf: Kdf, stored: string, token: string) {
    match ParseHash(stored)
    case None => false
    case Some(h) => kdf(token, h.salt, h.n, h.r, h.p, |h.digest|) == Some(h.digest)
  }

  // ----- splitting on one character ---------------------------------------------------

  predicate Free(s: string, sep: string) {
    |sep| == 1 && sep[0] !in s
  }

  lemma FreeIsUncut(s: string, sep: string)
    requires Free(s, sep)
    ensures !Contains(s, sep) && CutsAfter(s, sep)
  {
    forall j: nat
      ensures !OccursAt(s, sep, j)
    {
      assert j < |s| ==> s[j..j + 1][0] == s[j];
    }
    var t := s + sep;
    forall j: nat | j < |s|
      ensures !OccursAt(t, sep, j)
    {
      assert t[j..j + 1][0] == s[j];
    }
    assert OccursAt(t, sep, |s|);
  }

  /** Joining parts that are free of the separator and splitting again gives the parts. */
  lemma SplitJoin(parts: seq<string>, sep: string)
    requires parts != [] && |sep| == 1 && forall p :: p in parts ==> Free(p, sep)
    ensures Split(Join(parts, sep), sep) == parts
  {
    hide Free, CutsAfter, Contains, Split;
    forall i | 0 <= i < |parts|
      ensures !Contains(parts[i], sep) && CutsAfter(parts[i], sep)
    {
      assert parts[i] in parts;
      FreeIsUncut(parts[i], sep);
    }
    SplitUnique(parts, Join(parts, sep), sep);
  }

  lemma JoinThree(a: string, b: string, c: string, sep: string)
    ensures Join([a, b, c], sep) == a + sep + b + sep + c
  {
    assert [b, c][1..] == [c];
    assert Join([b, c], sep) == b + sep + c;
    assert [a, b, c][1..] == [b, c];
    assert a + sep + (b + sep + c) == a + sep + b + sep + c;
  }

  lemma JoinFive(a: string, b: string, c: string, d: string, e: string, sep: string)
    ensures Join([a, b, c, d, e], sep) == a + sep + b + sep + c + sep + d + sep + e
  {
    JoinThree(c, d, e, sep);
    assert [b, c, d, e][1..] == [c, d, e];
    assert Join([b, c, d, e], sep) == b + sep + Join([c, d, e], sep);
    assert [a, b, c, d, e][1..] == [b, c, d, e];
    assert a + sep + (b + sep + (c + sep + d + sep + e)) == a + sep + b + sep + c + sep + d + sep + e;
  }

  // ----- round trips ------------------------------------------------------------------

  lemma ParamRoundTrip(key: string, n: nat)
    requires |key| == 1 && key != "="
    ensures ParseParam(key + "=" + Decimal.Print(n)) == Some((key, n))
  {
    var kv := key + "=" + Decimal.Print(n);
    assert !OccursAt(kv, "=", 0) by {
      assert kv[0..1] == key;
    }
    assert OccursAt(kv, "=", 1) by {
      assert kv[1..2] == "=";
    }
    assert Find(kv, "=", 0) == Some(1);
    assert kv[2..] == Decimal.Print(n) && kv[..1] == key;
    Decimal.ParsePrint(n);
  }

  lemma ParamsRoundTrip(h: HashRecord)
    ensures ParseParams(Split(PrintParams(h), ",")) == Some(map["N" := h.n, "r" := h.r, "p" := h.p])
  {
    hide Split, ParseParam, Decimal.Print;
    var a, b, c := "N" + "=" + Decimal.Print(h.n), "r" + "=" + Decimal.Print(h.r), "p" + "=" + Decimal.Print(h.p);
    var parts := [a, b, c];
    assert Free(a, ",") && Free(b, ",") && Free(c, ",");
    SplitJoin(parts, ",");
    JoinThree(a, b, c, ",");
    ParamsText(h);
    ParamRoundTrip("N", h.n);
    ParamRoundTrip("r", h.r);
    ParamRoundTrip("p", h.p);
    assert [a][..0] == [];
    assert ParseParams([a]) == Some(map["N" := h.n]);
    assert [a, b][..1] == [a];
    assert ParseParams([a, b]) == Some(map["N" := h.n, "r" := h.r]);
    assert parts[..2] == [a, b];
  }

  lemma ParamsText(h: HashRecord)
    ensures PrintParams(h)
         == ("N" + "=" + Decimal.Print(h.n)) + "," + ("r" + "=" + Decimal.Print(h.r)) + "," + ("p" + "=" + Decimal.Print(h.p))
  {
    assert "N" + "=" == "N=" && "," + ("r" + "=" + Decimal.Print(h.r)) == ",r=" + Decimal.Print(h.r);
    assert "," + ("p" + "=" + Decimal.Print(h.p)) == ",p=" + Decimal.Print(h.p);
  }

  /** The parser undoes the printer: every record comes back exactly. */
  lemma ParsePrintHash(h: HashRecord)
    ensures ParseHash(PrintHash(h)) == Some(h)
  {
    hide Split, PrintParams, Encode, Decode, ParseParams;
    var parts := ["", "scrypt", PrintParams(h), Encode(h.salt), Encode(h.digest)];
    ParamsFree(h);
    EncodeFree(h.salt);
    EncodeFree(h.digest);
    assert forall p :: p in parts ==> Free(p, "$");
    SplitJoin(parts, "$");
    JoinFive("", "scrypt", PrintParams(h), Encode(h.salt), Encode(h.digest), "$");
    assert "" + "$" + "scrypt" + "$" == "$scrypt$";
    ParamsRoundTrip(h);
    DecodeEncode(h.salt);
    DecodeEncode(h.digest);
  }

  lemma PrintedParams()
    ensures Decimal.Print(32768) == "32768" && Decimal.Print(8) == "8" && Decimal.Print(1) == "1"
  {
    hide Decimal.Print;
    Decimal.OneMoreDigit(0, 8);
    Decimal.OneMoreDigit(0, 1);
    Decimal.OneMoreDigit(0, 3);
    Decimal.OneMoreDigit(3, 2);
    Decimal.OneMoreDigit(32, 7);
    Decimal.OneMoreDigit(327, 6);
    Decimal.OneMoreDigit(3276, 8);
  }

  /** The stored string, to the letter. */
  lemma HashText(kdf: Kdf, token: string, salt: seq<Byte>)
    ensures match kdf(token, salt, 32768, 8, 1, 32)
            case Some(dk) => ScryptHash(kdf, token, salt) == Some("$scrypt$N=32768,r=8,p=1$" + Encode(salt) + "$" + Encode(dk))
            case None => ScryptHash(kdf, token, salt) == None
  {
    hide Encode, Decimal.Print;
    PrintedParams();
    var h := HashRecord(32768, 8, 1, salt, []);
    assert PrintParams(h) == "N=32768,r=8,p=1";
    assert "$scrypt$" + "N=32768,r=8,p=1" + "$" == "$scrypt$N=32768,r=8,p=1$";
  }

  lemma ParamsFree(h: HashRecord)
    ensures Free(PrintParams(h), "$")
  {
  }

  /** A stored hash accepts a token exactly when scrypt, run on that token with the recorded salt
      and parameters, gives the recorded digest. */
  lemma VerifyExact(kdf: Kdf, h: HashRecord, token: string)
    ensures ScryptVerify(kdf, PrintHash(h), token) <==> kdf(token, h.salt, h.n, h.r, h.p, |h.digest|) == Some(h.digest)
  {
    ParsePrintHash(h);
  }

  /** So the token that was hashed is accepted, whatever the salt. */
  lemma HashedTokenVerifies(kdf: Kdf, token: string, salt: seq<Byte>)
    requires ScryptHash(kdf, token, salt).Some?
    requires |kdf(token, salt, SCRYPT_N, SCRYPT_R, SCRYPT_P, SCRYPT_DKLEN).value| == SCRYPT_DKLEN
    ensures ScryptVerify(kdf, ScryptHash(kdf, token, salt).value, token)
  {
    var dk := kdf(token, salt, SCRYPT_N, SCRYPT_R, SCRYPT_P, SCRYPT_DKLEN).value;
    VerifyExact(kdf, HashRecord(SCRYPT_N, SCRYPT_R, SCRYPT_P, salt, dk), token);
  }
}
