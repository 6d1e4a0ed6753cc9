/**
 * `generateHash`: a package fingerprint is the Base 64 encoding of the
 * lowercase hex SHA-1 digests of its files, concatenated in list order.
 */
module Hashing {
  import opened Wrappers
  import opened Collaborators
  import Base64

  /** The digests of `files` in order, or the error of the first file that cannot be read. */
  function Digests(files: seq<string>, digest: string -> Option<Hex40>): (r: Result<seq<Hex40>, Error>)
    ensures r.Ok? <==> forall i | 0 <= i < |files| :: digest(files[i]).Some?
    ensures r.Ok? ==> |r.value| == |files| && forall i | 0 <= i < |files| :: digest(files[i]) == Some(r.value[i])
    ensures r.Err? ==> exists k | 0 <= k < |files| ::
      digest(files[k]).None? && r.error == IOError(files[k])
      && forall j | 0 <= j < k :: digest(files[j]).Some?
  {
    if files == [] then Ok([])
    else
      var n := |files| - 1;
      var init := files[..n];
      assert forall i | 0 <= i < n :: init[i] == files[i];
      var p := Digests(init, digest);
      if p.Err? then p
      else match digest(files[n])
        case None => Err(IOError(files[n]))
        case Some(h) => Ok(p.value + [h])
  }

  /** Once a prefix of the files has failed, the longer list fails with the same error. */
  lemma {:induction false} DigestsFailureSticks(files: seq<string>, digest: string -> Option<Hex40>, i: nat)
    requires i <= |files| && Digests(files[..i], digest).Err?
    ensures Digests(files, digest) == Digests(files[..i], digest)
    decreases |files| - i
  {
    if i < |files| {
      assert files[..i + 1][..i] == files[..i];
      DigestsFailureSticks(files, digest, i + 1);
    } else {
      assert files[..i] == files;
    }
  }

  /** The digests joined in order. */
  function Concat(ds: seq<Hex40>): (s: string)
    ensures |s| == 40 * |ds|
    ensures forall i | 0 <= i < |s| :: IsLowerHex(s[i])
  {
    if ds == [] then "" else Concat(ds[..|ds| - 1]) + ds[|ds| - 1]
  }

  /** Block `k` of the concatenation is digest `k`: permuting the files permutes the blocks. */
  lemma {:induction false} ConcatBlock(ds: seq<Hex40>, k: nat)
    requires k < |ds|
    ensures Concat(ds)[40 * k..40 * k + 40] == ds[k]
  {
    var n := |ds| - 1;
    if k < n {
      ConcatBlock(ds[..n], k);
      assert Concat(ds)[..40 * n] == Concat(ds[..n]);
    }
  }

  /** The concatenation determines the digest list. */
  lemma ConcatInjective(a: seq<Hex40>, b: seq<Hex40>)
    requires Concat(a) == Concat(b)
    ensures a == b
  {
    assert |a| == |b|;
    forall k | 0 <= k < |a| ensures a[k] == b[k] {
      ConcatBlock(a, k);
      ConcatBlock(b, k);
    }
  }

  /** The bytes of an ASCII string. */
  function AsciiBytes(s: string): (bs: seq<Base64.Byte>)
    requires forall i | 0 <= i < |s| :: IsLowerHex(s[i])
    ensures |bs| == |s| && forall i | 0 <= i < |s| :: bs[i] == s[i] as int
  {
    seq(|s|, i requires 0 <= i < |s| && IsLowerHex(s[i]) => (s[i] as int) as Base64.Byte)
  }

  /** The fingerprint of a list of files, or the error of the first unreadable file. */
  function Fingerprint(files: seq<string>, digest: string -> Option<Hex40>): Result<string, Error> {
    match Digests(files, digest)
    case Err(e) => Err(e)
    case Ok(ds) => Ok(Base64.Encode(AsciiBytes(Concat(ds))))
  }

  /**
   * `generateHash`: reads each file's digest in order, stops at the first
   * failure without producing a fingerprint, and otherwise encodes the joined
   * digests.
   */
  method GenerateHash(files: seq<string>, digest: string -> Option<Hex40>) returns (r: Result<string, Error>)
    ensures r == Fingerprint(files, digest)
  {
    var hashes := "";
    ghost var ds: seq<Hex40> := [];
    for i := 0 to |files|
      invariant Digests(files[..i], digest) == Ok(ds)
      invariant hashes == Concat(ds)
    {
      var hash := digest(files[i]);
      if hash.None? {
        assert files[..i + 1][..i] == files[..i];
        DigestsFailureSticks(files, digest, i + 1);
        return Err(IOError(files[i]));
      }
      assert files[..i + 1][..i] == files[..i];
      assert (ds + [hash.value])[..|ds|] == ds;
      ds := ds + [hash.value];
      hashes := hashes + hash.value;
    }
    assert files[..|files|] == files;
    r := Ok(Base64.Encode(AsciiBytes(hashes)));
  }

  /**
   * A successful fingerprint encodes exactly the 40-character digests of the
   * files in order (so the text before encoding has length 40 per file); the
   * empty list has the empty fingerprint.
   */
  lemma FingerprintOfReadableFiles(files: seq<string>, digest: string -> Option<Hex40>)
    requires forall i | 0 <= i < |files| :: digest(files[i]).Some?
    ensures var ds := Digests(files, digest).value;
      && |Concat(ds)| == 40 * |files|
      && (forall k | 0 <= k < |files| :: Concat(ds)[40 * k..40 * k + 40] == digest(files[k]).value)
      && Fingerprint(files, digest) == Ok(Base64.Encode(AsciiBytes(Concat(ds))))
    ensures files == [] ==> Fingerprint(files, digest) == Ok("")
  {
    var ds := Digests(files, digest).value;
    forall k | 0 <= k < |files| ensures Concat(ds)[40 * k..40 * k + 40] == digest(files[k]).value {
      ConcatBlock(ds, k);
    }
  }

  /** The first unreadable file decides the error, whatever follows it. */
  lemma FingerprintFirstFailure(files: seq<string>, digest: string -> Option<Hex40>, k: nat)
    requires k < |files| && digest(files[k]).None?
    requires forall j | 0 <= j < k :: digest(files[j]).Some?
    ensures Fingerprint(files, digest) == Err(IOError(files[k]))
  {
    var r := Digests(files, digest);
    assert r.Err?;
    var k' :| 0 <= k' < |files| && digest(files[k']).None? && r.error == IOError(files[k'])
      && forall j | 0 <= j < k' :: digest(files[j]).Some?;
    assert k' == k;
  }

  /**
   * Two successful fingerprints are equal exactly when the digest lists are:
   * the same contents in the same order give the same fingerprint, and any
   * change of a digest or of their order changes it.
   */
  lemma FingerprintDeterminesDigests(f1: seq<string>, f2: seq<string>, digest: string -> Option<Hex40>)
    requires Fingerprint(f1, digest).Ok? && Fingerprint(f2, digest).Ok?
    ensures Fingerprint(f1, digest) == Fingerprint(f2, digest) <==> Digests(f1, digest) == Digests(f2, digest)
  {
    var d1, d2 := Digests(f1, digest).value, Digests(f2, digest).value;
    if Fingerprint(f1, digest) == Fingerprint(f2, digest) {
      Base64.EncodeInjective(AsciiBytes(Concat(d1)), AsciiBytes(Concat(d2)));
      var s1, s2 := Concat(d1), Concat(d2);
      assert |s1| == |s2|;
      forall i | 0 <= i < |s1| ensures s1[i] == s2[i] {
        assert AsciiBytes(s1)[i] == AsciiBytes(s2)[i];
      }
      assert s1 == s2;
      ConcatInjective(d1, d2);
    }
  }
}
