/** The key strings of the two tables, taken apart again and searched by prefix. */
module Keys {
  import opened Domain
  import opened Tables

  const COMPLETE := "CLIENTKIDPURPOSE"
  const PARTIAL := "CLIENTKID"

  function KeyString(pk: TokenKey): string {
    match pk
    case ClientKidPurpose(c, kid, p) => COMPLETE + "#" + (c.raw + "#" + (kid + "#" + p.raw))
    case ClientKid(c, kid) => PARTIAL + "#" + (c.raw + "#" + kid)
  }

  /** `split("#")`. */
  function Split(s: string): (parts: seq<string>)
    ensures |parts| > 0
  {
    if s == "" then [""]
    else
      var rest := Split(s[1..]);
      if s[0] == '#' then [""] + rest else [[s[0]] + rest[0]] + rest[1..]
  }

  function ExtractKid(key: string): string
    requires |Split(key)| > 2
  {
    Split(key)[2]
  }

  predicate Plain(s: string) {
    '#' !in s
  }

  /** No component of the key contains the separator. */
  predicate Separable(pk: TokenKey) {
    Plain(pk.client.raw) && Plain(pk.kid) && (pk.ClientKidPurpose? ==> Plain(pk.purpose.raw))
  }

  lemma {:induction false} SplitAtSeparator(a: string, b: string)
    requires Plain(a)
    ensures Split(a + "#" + b) == [a] + Split(b)
  {
    var s := a + "#" + b;
    if a == "" {
      assert s[1..] == b;
    } else {
      assert s[1..] == a[1..] + "#" + b;
      SplitAtSeparator(a[1..], b);
      assert s[0] == a[0] && [a[0]] + a[1..] == a;
    }
  }

  lemma {:induction false} SplitPlain(a: string)
    requires Plain(a)
    ensures Split(a) == [a]
  {
    if a != "" {
      SplitPlain(a[1..]);
      assert [a[0]] + a[1..] == a;
    }
  }

  /** The parts of a key string. */
  lemma SplitKey(pk: TokenKey)
    requires Separable(pk)
    ensures Split(KeyString(pk))
            == if pk.ClientKidPurpose? then [COMPLETE, pk.client.raw, pk.kid, pk.purpose.raw]
              else [PARTIAL, pk.client.raw, pk.kid]
  {
    match pk
    case ClientKidPurpose(c, kid, p) =>
      SplitAtSeparator(COMPLETE, c.raw + "#" + (kid + "#" + p.raw));
      SplitAtSeparator(c.raw, kid + "#" + p.raw);
      SplitAtSeparator(kid, p.raw);
      SplitPlain(p.raw);
    case ClientKid(c, kid) =>
      SplitAtSeparator(PARTIAL, c.raw + "#" + kid);
      SplitAtSeparator(c.raw, kid);
      SplitPlain(kid);
  }

  /** A key string gives back its kid, and the key itself. */
  lemma KeysAreReadable(pk: TokenKey, other: TokenKey)
    requires Separable(pk) && Separable(other)
    ensures |Split(KeyString(pk))| > 2 && ExtractKid(KeyString(pk)) == pk.kid
    ensures KeyString(pk) == KeyString(other) <==> pk == other
  {
    SplitKey(pk);
    SplitKey(other);
  }

  /* ---- the keys of platform-states, and the index keys ---- */

  datatype RowKey =
    | PurposeKey(purpose: PurposeId)
    | AgreementRowKey(agreement: AgreementKey)
    | DescriptorRowKey(descriptor: DescriptorKey)
    | ClientKey(client: ClientId)

  function RowKeyString(k: RowKey): string {
    match k
    case PurposeKey(p) => "PURPOSE" + "#" + p.raw
    case AgreementRowKey(a) => "AGREEMENT" + "#" + AgreementIndex(a)
    case DescriptorRowKey(d) => "ESERVICEDESCRIPTOR" + "#" + DescriptorIndex(d)
    case ClientKey(c) => "CLIENT" + "#" + c.raw
  }

  function AgreementIndex(a: AgreementKey): string {
    a.consumer.raw + "#" + a.eservice.raw
  }

  function DescriptorIndex(d: DescriptorKey): string {
    d.eservice.raw + "#" + d.descriptor.raw
  }

  predicate PlainKey(k: RowKey) {
    match k
    case PurposeKey(p) => Plain(p.raw)
    case AgreementRowKey(a) => Plain(a.consumer.raw) && Plain(a.eservice.raw)
    case DescriptorRowKey(d) => Plain(d.eservice.raw) && Plain(d.descriptor.raw)
    case ClientKey(c) => Plain(c.raw)
  }

  lemma SplitRowKey(k: RowKey)
    requires PlainKey(k)
    ensures Split(RowKeyString(k)) ==
            match k
            case PurposeKey(p) => ["PURPOSE", p.raw]
            case AgreementRowKey(a) => ["AGREEMENT", a.consumer.raw, a.eservice.raw]
            case DescriptorRowKey(d) => ["ESERVICEDESCRIPTOR", d.eservice.raw, d.descriptor.raw]
            case ClientKey(c) => ["CLIENT", c.raw]
  {
    match k
    case PurposeKey(p) =>
      SplitAtSeparator("PURPOSE", p.raw);
      SplitPlain(p.raw);
    case AgreementRowKey(a) =>
      SplitAtSeparator("AGREEMENT", AgreementIndex(a));
      SplitAtSeparator(a.consumer.raw, a.eservice.raw);
      SplitPlain(a.eservice.raw);
    case DescriptorRowKey(d) =>
      SplitAtSeparator("ESERVICEDESCRIPTOR", DescriptorIndex(d));
      SplitAtSeparator(d.eservice.raw, d.descriptor.raw);
      SplitPlain(d.descriptor.raw);
    case ClientKey(c) =>
      SplitAtSeparator("CLIENT", c.raw);
      SplitPlain(c.raw);
  }

  /** Rows of one table, told apart by their keys alone: the four kinds never clash. */
  lemma RowKeysAreReadable(k: RowKey, other: RowKey)
    requires PlainKey(k) && PlainKey(other)
    ensures RowKeyString(k) == RowKeyString(other) <==> k == other
  {
    SplitRowKey(k);
    SplitRowKey(other);
  }

  /** An index selects the entries of one agreement or descriptor key, and of no other. */
  lemma IndexKeysAreReadable(a: AgreementKey, b: AgreementKey, d: DescriptorKey, e: DescriptorKey)
    requires PlainKey(AgreementRowKey(a)) && PlainKey(AgreementRowKey(b)) && PlainKey(DescriptorRowKey(d))
             && PlainKey(DescriptorRowKey(e))
    ensures AgreementIndex(a) == AgreementIndex(b) <==> a == b
    ensures DescriptorIndex(d) == DescriptorIndex(e) <==> d == e
  {
    RowKeysAreReadable(AgreementRowKey(a), AgreementRowKey(b));
    RowKeysAreReadable(DescriptorRowKey(d), DescriptorRowKey(e));
  }

  /* ---- searches by prefix ---- */

  lemma {:induction false} PrefixAtSeparator(a: string, x: string, b: string, y: string)
    requires Plain(a) && Plain(b)
    ensures a + "#" + x <= b + "#" + y <==> a == b && x <= y
  {
    var s, t := a + "#" + x, b + "#" + y;
    if a == "" {
      assert s[1..] == x && s[0] == '#';
      if b == "" {
        assert t[1..] == y;
        assert s <= t <==> s[1..] <= t[1..];
      } else {
        assert t[0] == b[0] && b[0] in b;
      }
    } else {
      assert s[0] == a[0] && a[0] in a && s[1..] == a[1..] + "#" + x;
      if b == "" {
        assert t[0] == '#';
      } else {
        assert t[0] == b[0] && t[1..] == b[1..] + "#" + y;
        PrefixAtSeparator(a[1..], x, b[1..], y);
        assert s <= t <==> s[0] == t[0] && s[1..] <= t[1..] by {
          PrefixByHead(s, t);
        }
        assert a == b <==> a[0] == b[0] && a[1..] == b[1..];
      }
    }
  }

  lemma PrefixByHead(s: string, t: string)
    requires s != "" && t != ""
    ensures s <= t <==> s[0] == t[0] && s[1..] <= t[1..]
  {
    if s[0] == t[0] && s[1..] <= t[1..] {
      assert s == [s[0]] + s[1..] && t[..|s|] == [t[0]] + t[1..][..|s| - 1];
    }
  }

  /** The two scans of a key's deletion. */
  predicate DeletedWithKid(c: ClientId, kid: string, pk: TokenKey) {
    PARTIAL + "#" + (c.raw + "#" + kid) <= KeyString(pk) || COMPLETE + "#" + (c.raw + "#" + kid) <= KeyString(pk)
  }

  lemma PrefixWithin(x: string, kid: string, rest: string)
    requires Plain(x) && Plain(kid)
    ensures x <= kid + "#" + rest <==> x <= kid
  {
    var t := kid + "#" + rest;
    assert t[|kid|] == '#';
    if |x| > |kid| {
      assert x[|kid|] in x;
    } else {
      assert t[..|x|] == kid[..|x|];
    }
  }

  /** The scans find the client's entries of every kid that begins with the given one. */
  lemma KidScan(c: ClientId, kid: string, pk: TokenKey)
    requires Separable(pk) && Plain(c.raw) && Plain(kid)
    ensures DeletedWithKid(c, kid, pk) <==> pk.client == c && kid <= pk.kid
  {
    var wanted := c.raw + "#" + kid;
    match pk
    case ClientKidPurpose(d, k, p) =>
      PrefixAtSeparator(PARTIAL, wanted, COMPLETE, d.raw + "#" + (k + "#" + p.raw));
      PrefixAtSeparator(COMPLETE, wanted, COMPLETE, d.raw + "#" + (k + "#" + p.raw));
      PrefixAtSeparator(c.raw, kid, d.raw, k + "#" + p.raw);
      PrefixWithin(kid, k, p.raw);
    case ClientKid(d, k) =>
      PrefixAtSeparator(PARTIAL, wanted, PARTIAL, d.raw + "#" + k);
      PrefixAtSeparator(COMPLETE, wanted, PARTIAL, d.raw + "#" + k);
      PrefixAtSeparator(c.raw, kid, d.raw, k);
  }

  /** Deleting a key deletes exactly that key's entries if and only if no kid of the client's entries
      properly extends the deleted one. */
  lemma KidDeletionIsExact(t: Tokens, c: ClientId, kid: string)
    requires forall pk :: pk in t ==> Separable(pk)
    requires Plain(c.raw) && Plain(kid)
    ensures (forall pk :: pk in t ==> (DeletedWithKid(c, kid, pk) <==> pk.client == c && pk.kid == kid))
            <==> (forall pk :: pk in t && pk.client == c ==> !(kid < pk.kid))
  {
    forall pk | pk in t
      ensures DeletedWithKid(c, kid, pk) <==> pk.client == c && kid <= pk.kid
    {
      KidScan(c, kid, pk);
    }
  }
}
