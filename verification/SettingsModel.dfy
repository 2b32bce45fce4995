/**
 The data a setting read passes through: stored values and the sentinels that stand for
 "not set", empty lists and empty dictionaries in the cache; field encryption; the
 `Setting` table; and the registry and settings files a process is started with.
 `DirectRead` is the plain lookup (table, then defaults) that the caching layers speed up.
 */
module SettingsModel {
  import opened Helpers

  type Pk = n: int | 0 < n witness 1

  /** A JSON value as the table stores it and Python code sees it. */
  datatype Value =
    | Null
    | Bool(b: bool)
    | Num(n: int)
    | Str(s: string)
    | List(items: seq<Value>)
    | Dict(entries: map<string, Value>)

  /******* Sentinels *******/

  const SETTING_CACHE_NOTSET := "___notset___"
  const SETTING_CACHE_EMPTY_LIST := "___[]___"
  const SETTING_CACHE_EMPTY_DICT := "___{}___"

  const NotSet := Str(SETTING_CACHE_NOTSET)

  predicate IsSentinel(v: Value) {
    v == NotSet || v == Str(SETTING_CACHE_EMPTY_LIST) || v == Str(SETTING_CACHE_EMPTY_DICT)
  }

  /** The form a value takes in the cache, which can hold neither None nor empty containers. */
  function CacheForm(v: Value): Value {
    match v
    case Null => NotSet
    case List(items) => if items == [] then Str(SETTING_CACHE_EMPTY_LIST) else v
    case Dict(entries) => if entries == map[] then Str(SETTING_CACHE_EMPTY_DICT) else v
    case _ => v
  }

  /** What a cached form stands for; `None` means the setting is not set. */
  function FromCache(cached: Value): Option<Value> {
    if cached == NotSet then None
    else if cached == Str(SETTING_CACHE_EMPTY_LIST) then Some(List([]))
    else if cached == Str(SETTING_CACHE_EMPTY_DICT) then Some(Dict(map[]))
    else Some(cached)
  }

  /** Decoding undoes encoding exactly for the values that are not themselves sentinel strings. */
  lemma CodecRoundTrip(v: Value)
    ensures FromCache(CacheForm(v)) == (if v.Null? then None else Some(v)) <==> !IsSentinel(v)
  {
  }

  /******* Field encryption *******/

  const ENCRYPTED_PREFIX := "$encrypted$"

  datatype Opened = Opened(text: string) | BadToken | Malformed

  /** The cryptography, left open: `seal` and `open` under the key derived from a row's
      primary key, and `text`, the string conversion applied before either. */
  datatype Cipher = Cipher(
    seal: (Option<Pk>, string) -> string,
    open: (Option<Pk>, string) -> Opened,
    text: Value -> string)

  predicate IsSealed(s: string) {
    ENCRYPTED_PREFIX <= s
  }

  /** Opening undoes sealing under the same key, and sealed text is authenticated: under any other
      key it is refused as a bad token. */
  ghost predicate Lawful(c: Cipher) {
    && (forall pk, s :: IsSealed(c.seal(pk, s)))
    && (forall pk, s :: c.open(pk, c.seal(pk, s)) == Opened(s))
    && (forall pk, pk1, s :: pk != pk1 ==> c.open(pk1, c.seal(pk, s)) == BadToken)
    && (forall s :: c.text(Str(s)) == s)
  }

  function EncryptField(c: Cipher, pk: Option<Pk>, v: Value): Value {
    if v.Null? then Null
    else
      var s := c.text(v);
      if s == "" || IsSealed(s) then Str(s) else Str(c.seal(pk, s))
  }

  function DecryptField(c: Cipher, pk: Option<Pk>, v: Value): Opened {
    var s := c.text(v);
    if s == "" || !IsSealed(s) then Opened(s) else c.open(pk, s)
  }

  lemma DecryptUndoesEncrypt(c: Cipher, pk: Option<Pk>, s: string)
    requires Lawful(c) && !IsSealed(s)
    ensures DecryptField(c, pk, EncryptField(c, pk, Str(s))) == Opened(s)
  {
  }

  /** Encrypted text opens under its own key, or under any if it is empty, and no other. */
  lemma OpensOrBreaks(c: Cipher, pk: Option<Pk>, pk1: Option<Pk>, s: string)
    requires Lawful(c) && !IsSealed(s)
    ensures DecryptField(c, pk1, EncryptField(c, pk, Str(s))) == if s == "" || pk1 == pk then Opened(s) else BadToken
  {
    if s != "" {
      assert c.text(Str(c.seal(pk, s))) == c.seal(pk, s) && IsSealed(c.seal(pk, s));
    }
  }

  /******* The Setting table *******/

  /** `user` is None for the global rows, the only ones a setting read looks at. */
  datatype Row = Row(pk: Pk, key: string, user: Option<int>, value: Value)

  predicate IsGlobal(r: Row, k: string) {
    r.key == k && r.user.None?
  }

  /** The global row with the lowest primary key; tables are listed in primary-key order. */
  function FirstRow(rows: seq<Row>, k: string): Option<Row> {
    if rows == [] then None
    else if IsGlobal(rows[0], k) then Some(rows[0])
    else FirstRow(rows[1..], k)
  }

  /******* Registry and settings files *******/

  /** A field default: none, a constant, or a callable computed from another setting's value. */
  datatype Default =
    | NoDefault
    | Fixed(value: Value)
    | Computed(source: string, compute: Value -> Value)

  datatype Field = Field(readOnly: bool, encrypted: bool, default: Default, dependsOn: set<string>)

  /** What every process of one installation shares: the registered fields in registration
      order, the settings files and the snapshot of their shipped defaults, the field classes'
      conversions (`None` is a raised exception), the cipher, and the timeout Redis applies
      to entries written without one. */
  datatype Site = Site(
    order: seq<string>,
    fields: map<string, Field>,
    files: map<string, Value>,
    snapshot: map<string, Value>,
    represent: (string, Value) -> Option<Value>,
    validate: (string, Value) -> Option<Value>,
    internalize: (string, Value) -> Option<Value>,
    cipher: Cipher,
    idTimeout: real)

  const INSTALL_UUID := "INSTALL_UUID"

  ghost predicate WellFormed(site: Site) {
    && (forall k :: k in site.order <==> k in site.fields)
    && (forall i, j :: 0 <= i < j < |site.order| ==> site.order[i] != site.order[j])
    && Lawful(site.cipher)
  }

  predicate IsEncrypted(site: Site, k: string) {
    k in site.fields && site.fields[k].encrypted
  }

  /** `marked` says this process has found the key defined in a settings file. */
  predicate IsReadOnly(site: Site, marked: bool, k: string)
    requires k in site.fields
  {
    site.fields[k].readOnly || marked
  }

  predicate IsDbBacked(site: Site, marked: bool, k: string)
    requires k in site.fields
  {
    !IsReadOnly(site, marked, k) || k == INSTALL_UUID
  }

  /** The default a field instance ends up with: the represented file value where there is one. */
  function FieldDefault(site: Site, marked: bool, k: string): Default
    requires k in site.fields
  {
    var f := site.fields[k];
    if (!IsReadOnly(site, marked, k) || f.default.NoDefault? || marked) && k in site.files then
      match site.represent(k, site.files[k])
      case Some(v) => Fixed(v)
      case None => f.default
    else
      f.default
  }

  /** Keys whose value in the settings files differs from the shipped default. */
  predicate IsFileDefined(site: Site, k: string) {
    && k in site.fields
    && IsDbBacked(site, false, k)
    && k in site.files
    && site.files[k] != Null
    && (if k in site.snapshot then site.snapshot[k] else Null) != site.files[k]
  }

  predicate IsWritable(site: Site, k: string) {
    k in site.fields && !site.fields[k].readOnly && !IsFileDefined(site, k)
  }

  /******* The plain lookup *******/

  /** What `_get_local` returns: a value, the `empty` marker, or an escaping exception. */
  datatype Outcome = Found(value: Value) | Empty | Raised

  /** What an attribute read gives: a value, AttributeError, or another exception. */
  datatype Effective = Resolved(value: Value) | Missing | Failed

  function Finish(site: Site, marked: bool, k: string, v: Value): Outcome
    requires k in site.fields
  {
    match (if IsReadOnly(site, marked, k) then site.internalize(k, v) else site.validate(k, v))
    case Some(x) => Found(x)
    case None => Empty
  }

  function Resolve(site: Site, k: string, o: Outcome): Effective {
    match o
    case Found(v) => Resolved(v)
    case Empty => if k in site.files then Resolved(site.files[k]) else Missing
    case Raised => Failed
  }

  /** The value a table row holds for `k`, decrypted where the field is encrypted. */
  function RowValue(site: Site, k: string, r: Row): Option<Value> {
    if IsEncrypted(site, k) then
      match DecryptField(site.cipher, Some(r.pk), r.value)
      case Opened(s) => Some(Str(s))
      case _ => None
    else
      Some(r.value)
  }

  /** The answer a stored value or a default gives; null and the "not set" marker count as not set. */
  function StoredAnswer(site: Site, k: string, v: Value): Effective
    requires k in site.fields
  {
    Resolve(site, k, if v == Null || v == NotSet then Empty else Finish(site, false, k, v))
  }

  /** The uncached lookup of a writable setting: first global row, else the field default, else
      the settings file. */
  function DirectRead(site: Site, rows: seq<Row>, k: string): Effective
    requires k in site.fields
  {
    match FirstRow(rows, k)
    case Some(r) =>
      (match RowValue(site, k, r)
       case None => Failed
       case Some(v) => StoredAnswer(site, k, v))
    case None =>
      match FieldDefault(site, false, k)
      case Fixed(v) => StoredAnswer(site, k, v)
      case _ => Resolve(site, k, Empty)
  }
}
