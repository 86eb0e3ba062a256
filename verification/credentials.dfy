/**
  The four credential records managed by the admin panel, field-level edits on
  one record, and the fixed four-slot collection that holds them.
 */
module Credentials {

  datatype Option<+T> = None | Some(value: T)

  /** The four fixed keys under which credentials are stored. */
  datatype Key = Cred1 | Cred2 | Cred3 | Cred4

  /** The key as it appears in database paths, dialog texts and notices. */
  function KeyName(k: Key): (name: string)
    ensures |name| == 5 && name[..4] == "cred"
  {
    match k
    case Cred1 => "cred1"
    case Cred2 => "cred2"
    case Cred3 => "cred3"
    case Cred4 => "cred4"
  }

  /** Reads a key back from its name; None for any other string. */
  function KeyOfName(name: string): (r: Option<Key>)
    ensures r.Some? ==> KeyName(r.value) == name
  {
    if name == "cred1" then Some(Cred1)
    else if name == "cred2" then Some(Cred2)
    else if name == "cred3" then Some(Cred3)
    else if name == "cred4" then Some(Cred4)
    else None
  }

  /** Names identify keys: reading a key's name gives the key back. */
  lemma KeyNameRoundTrip(k: Key)
    ensures KeyOfName(KeyName(k)) == Some(k)
  {
  }

  /** Distinct keys have distinct names. */
  lemma KeyNameInjective(j: Key, k: Key)
    ensures KeyName(j) == KeyName(k) <==> j == k
  {
  }

  /** One credential record. `locked` is 0 for unlocked and 1 for locked by
      convention, but any integer can be stored. */
  datatype Credential = Credential(
    belongsToSlot: string,
    email: string,
    password: string,
    expiryDate: string,
    locked: int,
    maxUsage: int,
    usageCount: int)

  /** The field names of a credential record. */
  datatype Field = BelongsToSlot | Email | Password | ExpiryDate | Locked | MaxUsage | UsageCount

  /** A field value: the record has string fields and number fields. */
  datatype Value = Text(text: string) | Number(number: int)

  /** Reads one field of a record. */
  function Get(c: Credential, f: Field): Value
  {
    match f
    case BelongsToSlot => Text(c.belongsToSlot)
    case Email => Text(c.email)
    case Password => Text(c.password)
    case ExpiryDate => Text(c.expiryDate)
    case Locked => Number(c.locked)
    case MaxUsage => Number(c.maxUsage)
    case UsageCount => Number(c.usageCount)
  }

  /** Two records that agree on every field are the same record. */
  lemma GetExtensional(a: Credential, b: Credential)
    requires forall f :: Get(a, f) == Get(b, f)
    ensures a == b
  {
    assert Get(a, BelongsToSlot) == Get(b, BelongsToSlot);
    assert Get(a, Email) == Get(b, Email);
    assert Get(a, Password) == Get(b, Password);
    assert Get(a, ExpiryDate) == Get(b, ExpiryDate);
    assert Get(a, Locked) == Get(b, Locked);
    assert Get(a, MaxUsage) == Get(b, MaxUsage);
    assert Get(a, UsageCount) == Get(b, UsageCount);
  }

  /** A single-field change: the field together with a value of its type. */
  datatype Edit =
    | SetSlot(slot: string)
    | SetEmail(newEmail: string)
    | SetPassword(newPassword: string)
    | SetExpiry(date: string)
    | SetLocked(flag: int)
    | SetMaxUsage(max: int)
    | SetUsageCount(count: int)
  {
    /** The field this edit writes. */
    function FieldOf(): Field
    {
      match this
      case SetSlot(_) => BelongsToSlot
      case SetEmail(_) => Email
      case SetPassword(_) => Password
      case SetExpiry(_) => ExpiryDate
      case SetLocked(_) => Locked
      case SetMaxUsage(_) => MaxUsage
      case SetUsageCount(_) => UsageCount
    }

    /** The value this edit writes. */
    function ValueOf(): Value
    {
      match this
      case SetSlot(v) => Text(v)
      case SetEmail(v) => Text(v)
      case SetPassword(v) => Text(v)
      case SetExpiry(v) => Text(v)
      case SetLocked(v) => Number(v)
      case SetMaxUsage(v) => Number(v)
      case SetUsageCount(v) => Number(v)
    }
  }

  /** The record with one field replaced: the edited field reads the new
      value and every other field reads as before. */
  function Apply(c: Credential, e: Edit): (r: Credential)
    ensures Get(r, e.FieldOf()) == e.ValueOf()
    ensures forall f :: f != e.FieldOf() ==> Get(r, f) == Get(c, f)
  {
    match e
    case SetSlot(v) => c.(belongsToSlot := v)
    case SetEmail(v) => c.(email := v)
    case SetPassword(v) => c.(password := v)
    case SetExpiry(v) => c.(expiryDate := v)
    case SetLocked(v) => c.(locked := v)
    case SetMaxUsage(v) => c.(maxUsage := v)
    case SetUsageCount(v) => c.(usageCount := v)
  }

  /** The field-level description determines the edited record: any record
      that reads the new value at the edited field and the old values
      elsewhere is the result of Apply. */
  lemma ApplyUnique(c: Credential, e: Edit, d: Credential)
    requires Get(d, e.FieldOf()) == e.ValueOf()
    requires forall f :: f != e.FieldOf() ==> Get(d, f) == Get(c, f)
    ensures d == Apply(c, e)
  {
    var r := Apply(c, e);
    forall f
      ensures Get(d, f) == Get(r, f)
    {
    }
    GetExtensional(d, r);
  }

  /** Applies a run of edits in order. */
  function ApplyAll(c: Credential, es: seq<Edit>): Credential
    decreases |es|
  {
    if |es| == 0 then c else ApplyAll(Apply(c, es[0]), es[1..])
  }

  /** A field that no edit in the run writes keeps its value. */
  lemma {:induction false} ApplyAllUntouched(c: Credential, es: seq<Edit>, f: Field)
    requires forall i :: 0 <= i < |es| ==> es[i].FieldOf() != f
    ensures Get(ApplyAll(c, es), f) == Get(c, f)
    decreases |es|
  {
    if |es| > 0 {
      assert es[0].FieldOf() != f;
      ApplyAllUntouched(Apply(c, es[0]), es[1..], f);
    }
  }

  /** A field written by the run reads the value of the last edit that writes it. */
  lemma {:induction false} ApplyAllLastWins(c: Credential, es: seq<Edit>, i: nat)
    requires i < |es|
    requires forall j :: i < j < |es| ==> es[j].FieldOf() != es[i].FieldOf()
    ensures Get(ApplyAll(c, es), es[i].FieldOf()) == es[i].ValueOf()
    decreases |es|
  {
    if i == 0 {
      ApplyAllUntouched(Apply(c, es[0]), es[1..], es[0].FieldOf());
    } else {
      ApplyAllLastWins(Apply(c, es[0]), es[1..], i - 1);
    }
  }

  /** The working set: exactly one record per key. */
  datatype Creds = Creds(cred1: Credential, cred2: Credential, cred3: Credential, cred4: Credential)

  function Lookup(cs: Creds, k: Key): Credential
  {
    match k
    case Cred1 => cs.cred1
    case Cred2 => cs.cred2
    case Cred3 => cs.cred3
    case Cred4 => cs.cred4
  }

  /** Replaces the record under one key and keeps the other three. */
  function Update(cs: Creds, k: Key, c: Credential): (r: Creds)
    ensures Lookup(r, k) == c
    ensures forall j :: j != k ==> Lookup(r, j) == Lookup(cs, j)
  {
    match k
    case Cred1 => cs.(cred1 := c)
    case Cred2 => cs.(cred2 := c)
    case Cred3 => cs.(cred3 := c)
    case Cred4 => cs.(cred4 := c)
  }

  /** Two working sets with the same record under every key are equal. */
  lemma CredsExtensional(a: Creds, b: Creds)
    requires forall k :: Lookup(a, k) == Lookup(b, k)
    ensures a == b
  {
    assert Lookup(a, Cred1) == Lookup(b, Cred1);
    assert Lookup(a, Cred2) == Lookup(b, Cred2);
    assert Lookup(a, Cred3) == Lookup(b, Cred3);
    assert Lookup(a, Cred4) == Lookup(b, Cred4);
  }

  /** Writing back the record a key already holds changes nothing. */
  lemma UpdateSame(cs: Creds, k: Key)
    ensures Update(cs, k, Lookup(cs, k)) == cs
  {
  }

  /** The lock value proposed by the lock button: 0 proposes 1, and every
      other value, not only 1, proposes 0. */
  function Flip(locked: int): (r: int)
    ensures r == 0 || r == 1
    ensures r == 1 <==> locked == 0
  {
    if locked == 0 then 1 else 0
  }

  /** Flipping twice restores a proper 0/1 flag, and normalises any other
      stored value to 1 instead of restoring it. */
  lemma FlipTwice(locked: int)
    ensures locked == 0 || locked == 1 ==> Flip(Flip(locked)) == locked
    ensures locked != 0 && locked != 1 ==> Flip(Flip(locked)) == 1 != locked
  {
  }
}
