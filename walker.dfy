/**
 * The one-level walk shared by hashing and build planning: a per-directory
 * operation is applied to each immediate sub-directory of the root, in listing
 * order, skipping plain files, storing each result under the entry's relative
 * name and stopping at the first failure.
 */
module Walker {
  import opened Wrappers
  import opened Collaborators

  /** `i` is the first directory entry whose operation fails. */
  predicate IsFirstFailure<T>(entries: seq<Entry>, op: string -> Result<T, Error>, i: int) {
    0 <= i < |entries| && entries[i].isDir && op(entries[i].abs).Err?
    && forall j | 0 <= j < i :: entries[j].isDir ==> op(entries[j].abs).Ok?
  }

  /** `i` is the last directory entry listed under its relative name. */
  predicate IsLastNamed(entries: seq<Entry>, i: int) {
    0 <= i < |entries| && entries[i].isDir
    && forall j | i < j < |entries| :: entries[j].isDir ==> entries[j].rel != entries[i].rel
  }

  /** The walk callback folded over the listing. */
  function Walk<T>(entries: seq<Entry>, op: string -> Result<T, Error>): Result<map<string, T>, Error>
  {
    if entries == [] then Ok(map[])
    else
      var n := |entries| - 1;
      var e := entries[n];
      var p := Walk(entries[..n], op);
      if p.Err? || !e.isDir then p
      else match op(e.abs)
        case Err(x) => Err(x)
        case Ok(v) => Ok(p.value[e.rel := v])
  }

  /** The walk succeeds exactly when the operation succeeds on every sub-directory. */
  lemma {:induction false} WalkSucceeds<T>(entries: seq<Entry>, op: string -> Result<T, Error>)
    ensures Walk(entries, op).Ok? <==> forall i | 0 <= i < |entries| :: entries[i].isDir ==> op(entries[i].abs).Ok?
  {
    if entries != [] {
      var n := |entries| - 1;
      WalkSucceeds(entries[..n], op);
      assert forall i | 0 <= i < n :: entries[..n][i] == entries[i];
    }
  }

  /** A successful walk has one key per sub-directory name and no other. */
  lemma {:induction false} WalkKeys<T>(entries: seq<Entry>, op: string -> Result<T, Error>)
    requires Walk(entries, op).Ok?
    ensures forall rel :: rel in Walk(entries, op).value <==>
      exists i | 0 <= i < |entries| :: entries[i].isDir && entries[i].rel == rel
  {
    if entries != [] {
      var n := |entries| - 1;
      WalkKeys(entries[..n], op);
      assert forall i | 0 <= i < n :: entries[..n][i] == entries[i];
    }
  }

  /** Each name holds the result of its (last listed) sub-directory. */
  lemma {:induction false} WalkValues<T>(entries: seq<Entry>, op: string -> Result<T, Error>, i: nat)
    requires Walk(entries, op).Ok? && IsLastNamed(entries, i)
    ensures entries[i].rel in Walk(entries, op).value
    ensures op(entries[i].abs) == Ok(Walk(entries, op).value[entries[i].rel])
  {
    var n := |entries| - 1;
    WalkSucceeds(entries[..n], op);
    if i < n {
      assert IsLastNamed(entries[..n], i);
      WalkValues(entries[..n], op, i);
    }
  }

  /** The first failing sub-directory's error is the walk's error; later ones are never tried. */
  lemma {:induction false} WalkFirstFailure<T>(entries: seq<Entry>, op: string -> Result<T, Error>, k: nat)
    requires IsFirstFailure(entries, op, k)
    ensures Walk(entries, op) == Err(op(entries[k].abs).error)
  {
    var n := |entries| - 1;
    if k < n {
      assert IsFirstFailure(entries[..n], op, k);
      WalkFirstFailure(entries[..n], op, k);
    } else {
      WalkSucceeds(entries[..n], op);
    }
  }

  /** Once a prefix of the listing has failed, the walk of the whole listing fails the same way. */
  lemma {:induction false} WalkFailureSticks<T>(entries: seq<Entry>, op: string -> Result<T, Error>, i: nat)
    requires i <= |entries| && Walk(entries[..i], op).Err?
    ensures Walk(entries, op) == Walk(entries[..i], op)
    decreases |entries| - i
  {
    if i < |entries| {
      assert entries[..i + 1][..i] == entries[..i];
      WalkFailureSticks(entries, op, i + 1);
    } else {
      assert entries[..i] == entries;
    }
  }

  /** A property every successful result of the operation has holds of every stored result. */
  lemma {:induction false} WalkAll<T>(entries: seq<Entry>, op: string -> Result<T, Error>, P: T -> bool)
    requires Walk(entries, op).Ok?
    requires forall i | 0 <= i < |entries| :: entries[i].isDir && op(entries[i].abs).Ok? ==> P(op(entries[i].abs).value)
    ensures forall rel | rel in Walk(entries, op).value :: P(Walk(entries, op).value[rel])
  {
    if entries != [] {
      var n := |entries| - 1;
      assert forall i | 0 <= i < n :: entries[..n][i] == entries[i];
      WalkAll(entries[..n], op, P);
    }
  }
}
