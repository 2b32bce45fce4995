/**
 The settings endpoint: what a category shows, with encrypted values masked, and what submitting
 a document for it writes. Submitting back what was shown keeps a setting's effective value exactly
 when the value shown is safe to put back.
 */
module SettingsView {
  import opened Helpers
  import opened SettingsModel
  import opened SettingsCache
  import opened SettingsFreshness
  import opened SettingsWrites

  const LICENSE := "LICENSE"

  /******* Showing a category *******/

  /** A default as the endpoint asks for it; a callable one is called by `current`. */
  function DefaultValue(site: Site, marked: bool, k: string, current: string -> Value): Value
    requires k in site.fields
  {
    match FieldDefault(site, marked, k)
    case Fixed(v) => v
    case NoDefault => Null
    case Computed(source, compute) => compute(current(source))
  }

  /** The global row with the highest primary key: of several rows the endpoint shows the last, where
      a setting read takes the first. */
  function LastRow(rows: seq<Row>, k: string): Option<Row> {
    if rows == [] then None
    else
      var n := |rows| - 1;
      if IsGlobal(rows[n], k) then Some(rows[n]) else LastRow(rows[..n], k)
  }

  /** The stored value of a setting as it is, or its default. */
  function Attribute(site: Site, marked: bool, rows: seq<Row>, k: string, current: string -> Value): Value
    requires k in site.fields
  {
    match (if IsDbBacked(site, marked, k) then LastRow(rows, k) else None)
    case Some(r) => r.value
    case None => DefaultValue(site, marked, k, current)
  }

  /** The attributes of a category's settings, before encrypted ones are masked. */
  function Attributes(site: Site, marked: set<string>, rows: seq<Row>, keys: seq<string>,
                      current: string -> Value): map<string, Value> {
    map k | k in keys && k in site.fields :: Attribute(site, k in marked, rows, k, current)
  }

  function Masked(site: Site, k: string, v: Value): Value {
    if IsEncrypted(site, k) && v.Str? && v.s != "" then Str(ENCRYPTED_PREFIX) else v
  }

  function Shown(site: Site, marked: bool, rows: seq<Row>, k: string, current: string -> Value): Value
    requires k in site.fields
  {
    Masked(site, k, Attribute(site, marked, rows, k, current))
  }

  /******* Submitting a document *******/

  predicate IsMask(site: Site, k: string, v: Value) {
    IsEncrypted(site, k) && v.Str? && IsSealed(v.s)
  }

  /** A submitted value after validation, in the form it is stored in; null is taken as it is. */
  function AcceptValue(site: Site, k: string, v: Value): Option<Value> {
    match site.validate(k, v)
    case None => None
    case Some(x) => if v == Null then Some(Null) else site.represent(k, x)
  }

  predicate IsSubmitted(site: Site, marked: bool, k: string)
    requires k in site.fields
  {
    k != LICENSE && !IsReadOnly(site, marked, k)
  }

  function NextPk(rows: seq<Row>): (pk: Pk)
    ensures forall r | r in rows :: r.pk < pk
  {
    if rows == [] then 1
    else
      var rest := NextPk(rows[1..]);
      if rows[0].pk < rest then rest else rows[0].pk + 1
  }

  /** The table after a validated value is written to a setting. */
  function WriteValue(site: Site, rows: seq<Row>, k: string, v: Value): seq<Row> {
    match FirstRow(rows, k)
    case None => rows + [Row(NextPk(rows), k, None, Sealed(site, k, Some(NextPk(rows)), v))]
    case Some(r) => PutValue(rows, r.pk, Sealed(site, k, Some(r.pk), v))
  }

  /** A submitted value goes to the table: it is no mask, it validates, and no row has it yet. */
  predicate IsWritten(site: Site, marked: set<string>, rows: seq<Row>, k: string, v: Value)
    requires k in site.fields
  {
    && IsSubmitted(site, k in marked, k) && !IsMask(site, k, v)
    && var x := AcceptValue(site, k, v);
       x.Some? && !IsMask(site, k, x.value) && (FirstRow(rows, k).None? || FirstRow(rows, k).value.value != x.value)
  }

  /** The table after the value submitted for one setting is taken in. */
  function Submit(site: Site, marked: set<string>, rows: seq<Row>, k: string, v: Value): seq<Row>
    requires k in site.fields
  {
    if IsWritten(site, marked, rows, k, v) then WriteValue(site, rows, k, AcceptValue(site, k, v).value) else rows
  }

  predicate IsTaken(site: Site, marked: set<string>, keys: seq<string>, document: map<string, Value>, k: string) {
    k in keys && k in site.fields && k in document && IsSubmitted(site, k in marked, k) && !IsMask(site, k, document[k])
  }

  /** Whether every submitted value validates; a document with one that does not is refused whole. */
  predicate IsValid(site: Site, marked: set<string>, keys: seq<string>, document: map<string, Value>) {
    forall k | k in keys && k in site.fields && k in document ::
      IsTaken(site, marked, keys, document, k) ==> AcceptValue(site, k, document[k]).Some?
  }

  function Validated(site: Site, marked: set<string>, keys: seq<string>,
                     document: map<string, Value>): map<string, Value>
    requires IsValid(site, marked, keys, document)
  {
    map k | k in keys && k in site.fields && IsTaken(site, marked, keys, document, k) ::
      AcceptValue(site, k, document[k]).value
  }

  /** A category's own check on what it shows now and what it is to hold. */
  type Check = (map<string, Value>, map<string, Value>) -> bool

  /** A document is accepted when its values validate and the category's check lets them pass. */
  predicate IsAcceptable(site: Site, marked: set<string>, rows: seq<Row>, keys: seq<string>,
                         document: map<string, Value>, current: string -> Value, check: Check) {
    IsValid(site, marked, keys, document)
    && check(Attributes(site, marked, rows, keys, current), Validated(site, marked, keys, document))
  }

  function SubmitAll(site: Site, marked: set<string>, rows: seq<Row>, keys: seq<string>,
                     document: map<string, Value>): seq<Row>
    decreases |keys|
  {
    if keys == [] then rows
    else
      var n := |keys| - 1;
      var rows1 := SubmitAll(site, marked, rows, keys[..n], document);
      if keys[n] in site.fields && keys[n] in document then Submit(site, marked, rows1, keys[n], document[keys[n]])
        else rows1
  }

  /** The settings a document writes to, in order: those whose cached values are then dropped. */
  function WrittenKeys(site: Site, marked: set<string>, rows: seq<Row>, keys: seq<string>,
                       document: map<string, Value>): seq<string>
    decreases |keys|
  {
    if keys == [] then []
    else
      var n := |keys| - 1;
      var k := keys[n];
      WrittenKeys(site, marked, rows, keys[..n], document)
      + if k in site.fields && k in document
           && IsWritten(site, marked, SubmitAll(site, marked, rows, keys[..n], document), k, document[k])
        then [k] else []
  }

  function Put(site: Site, marked: set<string>, rows: seq<Row>, keys: seq<string>, document: map<string, Value>,
               current: string -> Value, check: Check): seq<Row> {
    if IsAcceptable(site, marked, rows, keys, document, current, check)
      then SubmitAll(site, marked, rows, keys, document) else rows
  }

  /******* One setting *******/

  lemma NextPkIsNew(rows: seq<Row>)
    requires DistinctPks(rows)
    ensures forall k, v :: DistinctPks(rows + [Row(NextPk(rows), k, None, v)])
  {
  }

  lemma WriteLeavesOthers(site: Site, rows: seq<Row>, k: string, v: Value, other: string)
    requires DistinctPks(rows)
    ensures DistinctPks(WriteValue(site, rows, k, v))
    ensures other != k ==> FirstRow(WriteValue(site, rows, k, v), other) == FirstRow(rows, other)
  {
    match FirstRow(rows, k)
    case None =>
      NextPkIsNew(rows);
      FirstRowAfterAppend(rows, Row(NextPk(rows), k, None, Sealed(site, k, Some(NextPk(rows)), v)), other);
    case Some(r) =>
      FirstRowIsGlobal(rows, k);
      FirstRowIsGlobal(rows, other);
      FirstRowAfterPut(rows, r, Sealed(site, k, Some(r.pk), v), other);
      PutMembers(rows, r.pk, Sealed(site, k, Some(r.pk), v));
  }

  lemma SubmitLeavesOthers(site: Site, marked: set<string>, rows: seq<Row>, k: string, v: Value, other: string)
    requires k in site.fields && DistinctPks(rows)
    ensures DistinctPks(Submit(site, marked, rows, k, v))
    ensures other != k ==> FirstRow(Submit(site, marked, rows, k, v), other) == FirstRow(rows, other)
  {
    if AcceptValue(site, k, v).Some? {
      WriteLeavesOthers(site, rows, k, AcceptValue(site, k, v).value, other);
    }
  }

  /** A setting of the endpoint whose effective value a direct lookup gives. */
  predicate IsPlainSetting(site: Site, k: string) {
    IsWritable(site, k) && !FieldDefault(site, false, k).Computed?
  }

  /** The text of a value that is not text does not look sealed. */
  ghost predicate TextsArePlain(c: Cipher) {
    forall v: Value :: !v.Str? ==> !IsSealed(c.text(v))
  }

  /** What a written value is read back as: of an encrypted setting, its text. */
  function ReadForm(site: Site, k: string, v: Value): Value {
    if IsEncrypted(site, k) then Str(site.cipher.text(v)) else v
  }

  /** What makes putting a shown value back safe: it is not taken, or is a mask, or the first row holds
      it already, or as it will be read back it answers as what the first row holds, or, without a
      row, as the default that was shown. */
  predicate PutsBack(site: Site, rows: seq<Row>, k: string, v: Value)
    requires k in site.fields
  {
    || !IsSubmitted(site, false, k) || IsMask(site, k, v)
    || match FirstRow(rows, k)
       case None => StoredAnswer(site, k, ReadForm(site, k, v)) == StoredAnswer(site, k, v)
       case Some(r) =>
         || r.value == v
         || (RowValue(site, k, r).Some?
               && StoredAnswer(site, k, ReadForm(site, k, v)) == StoredAnswer(site, k, RowValue(site, k, r).value))
  }

  lemma WrittenReadsAs(site: Site, r: Row, v: Value)
    requires Lawful(site.cipher) && TextsArePlain(site.cipher) && !IsMask(site, r.key, v)
    ensures RowValue(site, r.key, r.(value := Sealed(site, r.key, Some(r.pk), v))) == Some(ReadForm(site, r.key, v))
  {
  }

  lemma ResubmitOne(site: Site, marked: set<string>, rows: seq<Row>, k: string, v: Value, current: string -> Value)
    requires Lawful(site.cipher) && TextsArePlain(site.cipher) && IsPlainSetting(site, k) && k !in marked
    requires DistinctPks(rows)
    requires IsMask(site, k, v) || AcceptValue(site, k, v) == Some(v)
    requires FirstRow(rows, k).None? ==> v == Masked(site, k, DefaultValue(site, false, k, current))
    ensures DirectRead(site, Submit(site, marked, rows, k, v), k) == DirectRead(site, rows, k) <==>
            PutsBack(site, rows, k, v)
  {
    if IsWritten(site, marked, rows, k, v) {
      match FirstRow(rows, k)
      case None =>
        var r := Row(NextPk(rows), k, None, Sealed(site, k, Some(NextPk(rows)), v));
        FirstRowAfterAppend(rows, r, k);
        WrittenReadsAs(site, r, v);
      case Some(r) =>
        FirstRowIsGlobal(rows, k);
        FirstRowAfterPut(rows, r, Sealed(site, k, Some(r.pk), v), k);
        WrittenReadsAs(site, r, v);
    }
  }

  /** Showing null for an encrypted setting that has no row: stored, it is the text of null. */
  predicate IsNullSecret(site: Site, rows: seq<Row>, k: string, v: Value) {
    IsEncrypted(site, k) && FirstRow(rows, k).None? && v == Null && k != LICENSE
  }

  predicate TextOfNullReadsSame(site: Site, k: string)
    requires k in site.fields
  {
    StoredAnswer(site, k, Str(site.cipher.text(Null))) == StoredAnswer(site, k, Null)
  }

  predicate HasTextDefault(site: Site, k: string)
    requires k in site.fields
  {
    var d := FieldDefault(site, false, k);
    IsEncrypted(site, k) && d.Fixed? ==> d.value.Str? || d.value == Null
  }

  lemma {:induction false} LastIsFirst(rows: seq<Row>, k: string)
    requires AtMostOneRow(rows, k)
    ensures LastRow(rows, k) == FirstRow(rows, k)
    decreases |rows|
  {
    if rows != [] {
      var n := |rows| - 1;
      LastIsFirst(rows[..n], k);
      FirstRowIsGlobal(rows[..n], k);
      FirstRowAfterAppend(rows[..n], rows[n], k);
      assert rows[..n] + [rows[n]] == rows;
    }
  }

  lemma {:induction false} LastIsGlobal(rows: seq<Row>, k: string)
    ensures LastRow(rows, k).None? <==> forall r | r in rows :: !IsGlobal(r, k)
    decreases |rows|
  {
    if rows != [] {
      var n := |rows| - 1;
      LastIsGlobal(rows[..n], k);
      assert rows == rows[..n] + [rows[n]];
    }
  }

  /** With one row at most, only the null of an encrypted setting that has none is unsafe. */
  lemma OneRowPutsBack(site: Site, rows: seq<Row>, k: string, current: string -> Value)
    requires Lawful(site.cipher) && IsPlainSetting(site, k) && HasTextDefault(site, k) && AtMostOneRow(rows, k)
    ensures var v := Shown(site, false, rows, k, current);
            PutsBack(site, rows, k, v) <==> (!IsNullSecret(site, rows, k, v) || TextOfNullReadsSame(site, k))
  {
    LastIsFirst(rows, k);
  }

  /******* A whole category *******/

  function Document(site: Site, marked: set<string>, rows: seq<Row>, keys: seq<string>,
                    current: string -> Value): map<string, Value> {
    map k | k in keys && k in site.fields :: Shown(site, k in marked, rows, k, current)
  }

  lemma {:induction false} SubmitAllLeaves(site: Site, marked: set<string>, rows: seq<Row>, keys: seq<string>,
                                           document: map<string, Value>, k: string)
    requires DistinctPks(rows)
    ensures DistinctPks(SubmitAll(site, marked, rows, keys, document))
    ensures k !in keys ==> FirstRow(SubmitAll(site, marked, rows, keys, document), k) == FirstRow(rows, k)
    decreases |keys|
  {
    if keys != [] {
      var n := |keys| - 1;
      SubmitAllLeaves(site, marked, rows, keys[..n], document, k);
      assert keys[n] in keys;
      if keys[n] in site.fields && keys[n] in document {
        SubmitLeavesOthers(site, marked, SubmitAll(site, marked, rows, keys[..n], document), keys[n], document[keys[n]],
                           k);
      }
    }
  }

  /** Reading a setting looks only at its first row. */
  lemma OnlyFirstRow(site: Site, rows: seq<Row>, rows1: seq<Row>, k: string)
    requires k in site.fields && FirstRow(rows1, k) == FirstRow(rows, k)
    ensures DirectRead(site, rows1, k) == DirectRead(site, rows, k)
  {
  }

  /** What a document does to one setting is what submitting that setting's value does, to a table
      that holds the same of it. */
  lemma {:induction false} SubmitsOnce(site: Site, marked: set<string>, rows: seq<Row>, keys: seq<string>,
                                       document: map<string, Value>, k: string)
    returns (before: seq<Row>)
    requires DistinctPks(rows) && NoRepeats(keys) && k in keys && k in site.fields && k in document
    ensures DistinctPks(before) && FirstRow(before, k) == FirstRow(rows, k)
    ensures FirstRow(SubmitAll(site, marked, rows, keys, document), k)
            == FirstRow(Submit(site, marked, before, k, document[k]), k)
    decreases |keys|
  {
    var n := |keys| - 1;
    SubmitAllLeaves(site, marked, rows, keys[..n], document, k);
    if keys[n] == k {
      assert k !in keys[..n];
      before := SubmitAll(site, marked, rows, keys[..n], document);
    } else {
      before := SubmitsOnce(site, marked, rows, keys[..n], document, k);
      if keys[n] in site.fields && keys[n] in document {
        SubmitLeavesOthers(site, marked, SubmitAll(site, marked, rows, keys[..n], document), keys[n], document[keys[n]],
                           k);
      }
    }
  }

  lemma SubmitAllAt(site: Site, marked: set<string>, rows: seq<Row>, keys: seq<string>, document: map<string, Value>,
                    k: string, current: string -> Value)
    requires Lawful(site.cipher) && TextsArePlain(site.cipher) && DistinctPks(rows) && NoRepeats(keys)
    requires k in keys && IsPlainSetting(site, k) && k !in marked
    requires k in document && (IsMask(site, k, document[k]) || AcceptValue(site, k, document[k]) == Some(document[k]))
    requires FirstRow(rows, k).None? ==> document[k] == Masked(site, k, DefaultValue(site, false, k, current))
    ensures DirectRead(site, SubmitAll(site, marked, rows, keys, document), k) == DirectRead(site, rows, k) <==>
            PutsBack(site, rows, k, document[k])
  {
    var before := SubmitsOnce(site, marked, rows, keys, document, k);
    OnlyFirstRow(site, rows, before, k);
    OnlyFirstRow(site, Submit(site, marked, before, k, document[k]), SubmitAll(site, marked, rows, keys, document), k);
    ResubmitOne(site, marked, before, k, document[k], current);
  }

  /** Submitting back the document a category shows, where validation would leave the value shown of
      a setting as it is, leaves that setting's effective value as it was, whether it had a row, took
      a default or was masked, and whatever becomes of the other settings, exactly if the document is
      refused or the value is safe to put back. */
  lemma PutBackIsNoOp(site: Site, marked: set<string>, rows: seq<Row>, keys: seq<string>, current: string -> Value,
                      check: Check, k: string)
    requires Lawful(site.cipher) && TextsArePlain(site.cipher) && DistinctPks(rows) && NoRepeats(keys)
    requires IsPlainSetting(site, k) && k !in marked
    requires var v := Shown(site, false, rows, k, current);
             AcceptValue(site, k, v).Some? ==> AcceptValue(site, k, v) == Some(v)
    ensures var document := Document(site, marked, rows, keys, current);
            DirectRead(site, Put(site, marked, rows, keys, document, current, check), k) == DirectRead(site, rows, k)
            <==> (k !in keys || !IsAcceptable(site, marked, rows, keys, document, current, check)
              || PutsBack(site, rows, k, document[k]))
  {
    var document := Document(site, marked, rows, keys, current);
    FirstRowIsGlobal(rows, k);
    LastIsGlobal(rows, k);
    if IsAcceptable(site, marked, rows, keys, document, current, check) {
      if k !in keys {
        SubmitAllLeaves(site, marked, rows, keys, document, k);
        OnlyFirstRow(site, rows, SubmitAll(site, marked, rows, keys, document), k);
      } else if k == LICENSE {
        LicenseStays(site, marked, rows, keys, document);
        OnlyFirstRow(site, rows, SubmitAll(site, marked, rows, keys, document), k);
      } else {
        assert k in document && (IsMask(site, k, document[k]) || IsTaken(site, marked, keys, document, k));
        SubmitAllAt(site, marked, rows, keys, document, k, current);
      }
    }
  }

  /** The license is not among the settings a document can write. */
  lemma {:induction false} LicenseStays(site: Site, marked: set<string>, rows: seq<Row>, keys: seq<string>,
                                        document: map<string, Value>)
    requires DistinctPks(rows)
    ensures FirstRow(SubmitAll(site, marked, rows, keys, document), LICENSE) == FirstRow(rows, LICENSE)
    decreases |keys|
  {
    if keys != [] {
      var n := |keys| - 1;
      LicenseStays(site, marked, rows, keys[..n], document);
      SubmitAllLeaves(site, marked, rows, keys[..n], document, LICENSE);
      if keys[n] in site.fields && keys[n] in document && keys[n] != LICENSE {
        SubmitLeavesOthers(site, marked, SubmitAll(site, marked, rows, keys[..n], document), keys[n], document[keys[n]],
                           LICENSE);
      }
    }
  }

  /** And settings outside the category are never touched, whatever is submitted. */
  lemma PutLeavesOthers(site: Site, marked: set<string>, rows: seq<Row>, keys: seq<string>,
                        document: map<string, Value>, current: string -> Value, check: Check, k: string)
    requires DistinctPks(rows) && k in site.fields && k !in keys
    ensures DirectRead(site, Put(site, marked, rows, keys, document, current, check), k) == DirectRead(site, rows, k)
  {
    SubmitAllLeaves(site, marked, rows, keys, document, k);
    OnlyFirstRow(site, rows, SubmitAll(site, marked, rows, keys, document), k);
  }

  /** Every setting a document changes the effective value of is among those it reports as written,
      whose cached values are then dropped. */
  lemma ChangesAreWritten(site: Site, marked: set<string>, rows: seq<Row>, keys: seq<string>,
                          document: map<string, Value>, k: string)
    requires DistinctPks(rows) && k in site.fields && k !in WrittenKeys(site, marked, rows, keys, document)
    ensures DirectRead(site, SubmitAll(site, marked, rows, keys, document), k) == DirectRead(site, rows, k)
  {
    UnwrittenStays(site, marked, rows, keys, document, k);
    OnlyFirstRow(site, rows, SubmitAll(site, marked, rows, keys, document), k);
  }

  lemma {:induction false} UnwrittenStays(site: Site, marked: set<string>, rows: seq<Row>, keys: seq<string>,
                                          document: map<string, Value>, k: string)
    requires DistinctPks(rows) && k !in WrittenKeys(site, marked, rows, keys, document)
    ensures FirstRow(SubmitAll(site, marked, rows, keys, document), k) == FirstRow(rows, k)
    decreases |keys|
  {
    if keys != [] {
      var n := |keys| - 1;
      UnwrittenStays(site, marked, rows, keys[..n], document, k);
      SubmitAllLeaves(site, marked, rows, keys[..n], document, k);
      if keys[n] in site.fields && keys[n] in document && keys[n] != k {
        SubmitLeavesOthers(site, marked, SubmitAll(site, marked, rows, keys[..n], document), keys[n], document[keys[n]],
                           k);
      }
    }
  }

  /** What is written of a submitted value is read back from the table. */
  lemma SubmitStores(site: Site, marked: set<string>, rows: seq<Row>, k: string, v: Value)
    requires WellFormed(site) && IsPlainSetting(site, k) && k !in marked && k != LICENSE && DistinctPks(rows)
    requires !IsMask(site, k, v) && AcceptValue(site, k, v).Some? && !IsMask(site, k, AcceptValue(site, k, v).value)
    requires ReadsBack(site, k, AcceptValue(site, k, v).value)
    ensures DirectRead(site, Submit(site, marked, rows, k, v), k)
            == StoredAnswer(site, k, AcceptValue(site, k, v).value)
  {
    var x := AcceptValue(site, k, v).value;
    match FirstRow(rows, k)
    case None =>
      var r := Row(NextPk(rows), k, None, Sealed(site, k, Some(NextPk(rows)), x));
      FirstRowAfterAppend(rows, r, k);
      SealedReadable(site, r, x);
    case Some(r) =>
      FirstRowIsGlobal(rows, k);
      SealedReadable(site, r, x);
      FirstRowAfterPut(rows, r, Sealed(site, k, Some(r.pk), x), k);
  }

  /******* The view *******/

  /** What the rows hold for the settings of a category, later rows over earlier ones. */
  function StoredValues(site: Site, marked: set<string>, rows: seq<Row>, keys: seq<string>): map<string, Value> {
    map k | k in keys && k in site.fields && IsDbBacked(site, k in marked, k) && LastRow(rows, k).Some? ::
      LastRow(rows, k).value.value
  }

  lemma StoredStep(site: Site, marked: set<string>, rows: seq<Row>, keys: seq<string>, i: nat)
    requires i < |rows|
    ensures var stored, r := StoredValues(site, marked, rows[..i], keys), rows[i];
            StoredValues(site, marked, rows[..i + 1], keys) ==
            if r.user.None? && r.key in keys && r.key in site.fields && IsDbBacked(site, r.key in marked, r.key)
              then stored[r.key := r.value] else stored
  {
    assert rows[..i + 1][..i] == rows[..i] && rows[..i + 1][i] == rows[i];
  }

  /** Some attributes, and defaults for those of the first settings of a category that lack one. */
  function WithDefaults(site: Site, marked: set<string>, stored: map<string, Value>, keys: seq<string>, n: nat,
                        current: string -> Value): map<string, Value>
    requires n <= |keys|
  {
    if n == 0 then stored
    else WithDefault(site, marked, WithDefaults(site, marked, stored, keys, n - 1, current), keys[n - 1], current)
  }

  function WithDefault(site: Site, marked: set<string>, attrs: map<string, Value>, k: string,
                       current: string -> Value): map<string, Value> {
    if k !in attrs && k in site.fields then attrs[k := DefaultValue(site, k in marked, k, current)] else attrs
  }

  lemma {:induction false} DefaultAt(site: Site, marked: set<string>, stored: map<string, Value>, keys: seq<string>,
                                     n: nat, current: string -> Value, k: string)
    requires n <= |keys|
    ensures var attrs := WithDefaults(site, marked, stored, keys, n, current);
            && (k in attrs <==> k in stored || (k in keys[..n] && k in site.fields))
            && (k in stored ==> attrs[k] == stored[k])
            && (k in attrs && k !in stored ==> attrs[k] == DefaultValue(site, k in marked, k, current))
  {
    if n > 0 {
      DefaultAt(site, marked, stored, keys, n - 1, current, k);
      assert keys[..n] == keys[..n - 1] + [keys[n - 1]];
    }
  }

  /** What the rows hold with defaults for the rest are the attributes shown. */
  lemma AllFilled(site: Site, marked: set<string>, rows: seq<Row>, keys: seq<string>, current: string -> Value)
    ensures WithDefaults(site, marked, StoredValues(site, marked, rows, keys), keys, |keys|, current)
            == Attributes(site, marked, rows, keys, current)
  {
    var stored := StoredValues(site, marked, rows, keys);
    var attrs := WithDefaults(site, marked, stored, keys, |keys|, current);
    assert keys[..|keys|] == keys;
    forall k
      ensures k in attrs <==> k in Attributes(site, marked, rows, keys, current)
      ensures k in attrs ==> attrs[k] == Attribute(site, k in marked, rows, k, current)
    {
      DefaultAt(site, marked, stored, keys, |keys|, current, k);
    }
  }

  class SettingSingletonDetail {
    const site: Site
    const marked: set<string>
    var rows: seq<Row>

    constructor (site: Site, marked: set<string>, rows: seq<Row>)
      ensures this.site == site && this.marked == marked && this.rows == rows
    {
      this.site, this.marked, this.rows := site, marked, rows;
    }

    /** What the rows hold for a category, read one after another. */
    method GetStored(keys: seq<string>) returns (attrs: map<string, Value>)
      ensures attrs == StoredValues(site, marked, rows, keys)
    {
      attrs := map[];
      var i := 0;
      while i < |rows|
        invariant i <= |rows| && attrs == StoredValues(site, marked, rows[..i], keys)
      {
        StoredStep(site, marked, rows, keys, i);
        var r := rows[i];
        if r.user.None? && r.key in keys && r.key in site.fields && IsDbBacked(site, r.key in marked, r.key) {
          attrs := attrs[r.key := r.value];
        }
        i := i + 1;
      }
      assert rows[..i] == rows;
    }

    /** Defaults for the settings that the rows hold nothing for. */
    method FillDefaults(stored: map<string, Value>, keys: seq<string>, current: string -> Value)
      returns (attrs: map<string, Value>)
      ensures attrs == WithDefaults(site, marked, stored, keys, |keys|, current)
    {
      attrs := stored;
      var i := 0;
      while i < |keys|
        invariant i <= |keys| && attrs == WithDefaults(site, marked, stored, keys, i, current)
      {
        var k := keys[i];
        if k !in attrs && k in site.fields {
          attrs := attrs[k := DefaultValue(site, k in marked, k, current)];
        }
        i := i + 1;
      }
    }

    /** The attributes of a category's settings: what the rows hold, then defaults for the rest. */
    method GetObject(keys: seq<string>, current: string -> Value) returns (attrs: map<string, Value>)
      ensures attrs == Attributes(site, marked, rows, keys, current)
    {
      var stored := GetStored(keys);
      attrs := FillDefaults(stored, keys, current);
      AllFilled(site, marked, rows, keys, current);
    }

    /** The same as the serializer then shows them. */
    method Retrieve(keys: seq<string>, current: string -> Value) returns (document: map<string, Value>)
      ensures document == Document(site, marked, rows, keys, current)
    {
      var attrs := GetObject(keys, current);
      document := map[];
      var i := 0;
      while i < |keys|
        invariant i <= |keys| && document == Document(site, marked, rows, keys[..i], current)
      {
        var k := keys[i];
        assert keys[..i + 1] == keys[..i] + [k];
        if k in attrs {
          document := document[k := if IsEncrypted(site, k) && attrs[k].Str? && attrs[k].s != ""
            then Str(ENCRYPTED_PREFIX) else attrs[k]];
        }
        i := i + 1;
      }
      assert keys[..i] == keys;
    }

    /** Writes a submitted document setting by setting, once all of it has validated and passed the
        category's check, and reports what it wrote. */
    method Update(keys: seq<string>, document: map<string, Value>, current: string -> Value, check: Check)
      returns (ok: bool, changed: seq<string>)
      modifies this`rows
      ensures ok == IsAcceptable(site, marked, old(rows), keys, document, current, check)
      ensures rows == Put(site, marked, old(rows), keys, document, current, check)
      ensures changed == if ok then WrittenKeys(site, marked, old(rows), keys, document) else []
    {
      changed := [];
      var instance := GetObject(keys, current);
      ok := IsValid(site, marked, keys, document) && check(instance, Validated(site, marked, keys, document));
      if !ok {
        return;
      }
      var i := 0;
      while i < |keys|
        invariant i <= |keys| && rows == SubmitAll(site, marked, old(rows), keys[..i], document)
        invariant changed == WrittenKeys(site, marked, old(rows), keys[..i], document)
      {
        var k := keys[i];
        assert keys[..i + 1][..i] == keys[..i];
        if k in site.fields && k in document && IsSubmitted(site, k in marked, k) && !IsMask(site, k, document[k]) {
          var accepted := AcceptValue(site, k, document[k]);
          if accepted.Some? && !IsMask(site, k, accepted.value) {
            var value := accepted.value;
            var row := FirstRow(rows, k);
            if row.None? {
              rows := rows + [Row(NextPk(rows), k, None, Sealed(site, k, Some(NextPk(rows)), value))];
              changed := changed + [k];
            } else if row.value.value != value {
              rows := PutValue(rows, row.value.pk, Sealed(site, k, Some(row.value.pk), value));
              changed := changed + [k];
            }
          }
        }
        i := i + 1;
      }
      assert keys[..i] == keys;
    }
  }
}
