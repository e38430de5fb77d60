/** The Mongoose schemas of users, purchase requests, farms and zones. */
module Models {
  import opened Common

  /** `role` of a User: required, one of three values. */
  datatype Role = Owner | Worker | SuperAdmin

  /** `status` of a User. */
  datatype UserStatus = Active | Invited | Disabled

  /** A bcrypt digest. The digest remembers the plaintext it was made from; the salt
      (random in bcrypt) is supplied by the caller. Whether a password matches is decided
      by the Blowfish key both derive, not by the plaintexts themselves. */
  datatype PasswordHash = Hashed(plain: string, salt: nat)

  /** One byte of a UTF-8 encoding. */
  newtype Byte = b: int | 0 <= b < 256

  /** UTF-8 encoding of one Unicode scalar value. */
  function Utf8Char(c: char): (r: seq<Byte>)
    ensures 1 <= |r| <= 4
    ensures c as int < 0x80 ==> r == [c as int as Byte]
    ensures c as int >= 0x80 ==> |r| > 1 && r[0] >= 0xC0
  {
    var n := c as int;
    if n < 0x80 then [n as Byte]
    else if n < 0x800 then [(0xC0 + n / 0x40) as Byte, (0x80 + n % 0x40) as Byte]
    else if n < 0x1_0000 then
      [(0xE0 + n / 0x1000) as Byte, (0x80 + n / 0x40 % 0x40) as Byte, (0x80 + n % 0x40) as Byte]
    else
      [(0xF0 + n / 0x4_0000) as Byte, (0x80 + n / 0x1000 % 0x40) as Byte,
       (0x80 + n / 0x40 % 0x40) as Byte, (0x80 + n % 0x40) as Byte]
  }

  /** UTF-8 encoding of a string, as bcryptjs converts a password to bytes. */
  function Utf8(s: string): (r: seq<Byte>)
    ensures |r| >= |s|
    decreases |s|
  {
    if |s| == 0 then [] else Utf8Char(s[0]) + Utf8(s[1..])
  }

  /** Number of key bytes the Blowfish key schedule reads (18 words of 4 bytes). */
  const KeyLength: nat := 72

  /** The first `n` bytes of `key` repeated without end: the key schedule reads the key
      cyclically. */
  function Cycle(key: seq<Byte>, n: nat): (r: seq<Byte>)
    requires |key| > 0
    ensures |r| == n
    ensures n <= |key| ==> r == key[..n]
    decreases n
  {
    if n <= |key| then key[..n] else key + Cycle(key, n - |key|)
  }

  /** The Blowfish key bcrypt derives from a password: its UTF-8 bytes and a terminating
      NUL (hash versions `2a` and `2b`), repeated to fill 72 bytes. */
  function BcryptKey(password: string): (r: seq<Byte>)
    ensures |r| == KeyLength
  {
    Cycle(Utf8(password) + [0], KeyLength)
  }

  /** `bcrypt.compare(password, hash)`: the two passwords yield the same Blowfish key. */
  predicate Matches(password: string, hash: PasswordHash) {
    BcryptKey(password) == BcryptKey(hash.plain)
  }

  /** Encoding is compositional. */
  lemma {:induction false} Utf8Concat(a: string, b: string)
    ensures Utf8(a + b) == Utf8(a) + Utf8(b)
    decreases |a|
  {
    if |a| == 0 {
      assert a + b == b;
    } else {
      assert (a + b)[1..] == a[1..] + b;
      Utf8Concat(a[1..], b);
    }
  }

  /** A key repeated twice cycles to the same bytes as the key itself. */
  lemma {:induction false} CycleTwice(key: seq<Byte>, n: nat)
    requires |key| > 0
    ensures Cycle(key + key, n) == Cycle(key, n)
    decreases n
  {
    var m := |key|;
    if n <= m {
      assert (key + key)[..n] == key[..n];
    } else if n <= 2 * m {
      assert (key + key)[..n] == key + key[..n - m];
    } else {
      CycleTwice(key, n - 2 * m);
      assert Cycle(key, n - m) == key + Cycle(key, n - 2 * m);
    }
  }

  /** Only the first 72 bytes of a long password count: two passwords of at least 72 UTF-8
      bytes match exactly when those bytes agree, whatever follows them. */
  lemma LongPasswordsMatch(password: string, plain: string, salt: nat)
    requires |Utf8(password)| >= KeyLength && |Utf8(plain)| >= KeyLength
    ensures Matches(password, Hashed(plain, salt)) <==> Utf8(password)[..KeyLength] == Utf8(plain)[..KeyLength]
  {
    assert (Utf8(password) + [0])[..KeyLength] == Utf8(password)[..KeyLength];
    assert (Utf8(plain) + [0])[..KeyLength] == Utf8(plain)[..KeyLength];
  }

  /** The password, a NUL and the password again derive the password's own key, so they
      match its digest although the strings differ. */
  lemma RepeatedPasswordMatches(password: string, salt: nat)
    ensures Matches(password + "\0" + password, Hashed(password, salt))
    ensures password + "\0" + password != password
  {
    var key := Utf8(password) + [0];
    Utf8Concat(password + "\0", password);
    Utf8Concat(password, "\0");
    assert Utf8("\0") == [0];
    assert Utf8(password + "\0" + password) + [0] == key + key;
    CycleTwice(key, KeyLength);
  }

  /** A User document. Required fields are plain values; optional ones are `Option`. */
  datatype User = User(
    id: Id,
    email: string,
    passwordHash: PasswordHash,
    role: Role,
    fullName: Option<string>,
    phone: Option<string>,
    city: Option<string>,
    status: UserStatus,
    companyName: Option<string>)

  function UserId(u: User): Id { u.id }
  function UserEmail(u: User): string { u.email }

  /** Status a new User gets: the given one, or the schema default `ACTIVE`. */
  function InitialStatus(status: Option<UserStatus>): (s: UserStatus)
    ensures status.None? ==> s == Active
    ensures status.Some? ==> s == status.value
  {
    ValueOr(status, Active)
  }

  /** `status` of a PurchaseRequest. */
  datatype ReqStatus = Pending | Approved | Rejected

  /** A PurchaseRequest document; `userId` references a User. */
  datatype PurchaseRequest = PurchaseRequest(
    id: Id,
    fullName: string,
    email: string,
    phone: string,
    farmName: Option<string>,
    message: Option<string>,
    userId: Option<Id>,
    status: ReqStatus)

  function RequestId(q: PurchaseRequest): Id { q.id }

  /** A Farm document; `longueur` and `largeur` are its two dimensions (any number). The
      name is required when a farm is created, but an update can set it to `null`. */
  datatype Farm = Farm(
    id: Id,
    ownerId: Id,
    name: Option<string>,
    location: Option<string>,
    longueur: real,
    largeur: real)

  function FarmId(f: Farm): Id { f.id }

  /** Irrigation `mode` of a Zone. */
  datatype ZoneMode = Auto | Manual

  /** A Zone document: a `width` by `length` rectangle placed at (`x`, `y`) in its farm. */
  datatype Zone = Zone(
    id: Id,
    farmId: Id,
    name: string,
    cropType: Option<string>,
    width: real,
    length: real,
    x: real,
    y: real,
    mode: ZoneMode,
    moistureThreshold: Option<real>)

  /** The fields a client may supply for a new Zone; every one may be missing. */
  datatype ZoneFields = ZoneFields(
    name: Option<string>,
    cropType: Option<string>,
    width: Option<real>,
    length: Option<real>,
    x: Option<real>,
    y: Option<real>,
    mode: Option<ZoneMode>,
    moistureThreshold: Option<real>)

  /** Building a Zone document under the schema: `None` when a required field is missing
      (a ValidationError), otherwise the document with the schema defaults filled in. */
  function NewZone(id: Id, farmId: Id, f: ZoneFields): (r: Option<Zone>)
    ensures r.Some? <==> Truthy(f.name) && f.width.Some? && f.length.Some?
    ensures r.Some? ==> r.value.id == id && r.value.farmId == farmId
    ensures r.Some? ==> r.value.name == f.name.value
    ensures r.Some? ==> r.value.width == f.width.value && r.value.length == f.length.value
    ensures r.Some? && f.x.None? ==> r.value.x == 0.0
    ensures r.Some? && f.y.None? ==> r.value.y == 0.0
    ensures r.Some? && f.x.Some? ==> r.value.x == f.x.value
    ensures r.Some? && f.y.Some? ==> r.value.y == f.y.value
    ensures r.Some? && f.mode.None? ==> r.value.mode == Auto
    ensures r.Some? && f.mode.Some? ==> r.value.mode == f.mode.value
    ensures r.Some? ==> r.value.moistureThreshold == f.moistureThreshold
  {
    if Truthy(f.name) && f.width.Some? && f.length.Some? then
      Some(Zone(id, farmId, f.name.value, f.cropType, f.width.value, f.length.value,
                ValueOr(f.x, 0.0), ValueOr(f.y, 0.0), ValueOr(f.mode, Auto), f.moistureThreshold))
    else
      None
  }
}
