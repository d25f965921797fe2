/** A row that carries a hash of part of its own content, guarded only by the rule that changing the
    content has to change the hash. Packages (`plan`, `package_hash`) and proposals
    (`proposed_value`, `diff_hash`) are both guarded so. */
module HashRotation {
  datatype Version<H, C> = Version(hash: H, content: C)

  /** What the row guards enforce between one version of a row and the next. */
  predicate Guarded<H(==), C(==)>(versions: seq<Version<H, C>>) {
    forall n :: 0 < n < |versions| && versions[n].content != versions[n - 1].content ==>
      versions[n].hash != versions[n - 1].hash
  }

  /** A signature over the hash is a signature over the content: equal hashes, at any two moments,
      stand for equal content. */
  predicate HashIdentifies<H(==), C(==)>(versions: seq<Version<H, C>>) {
    forall m, n :: 0 <= m < n < |versions| && versions[m].hash == versions[n].hash ==>
      versions[m].content == versions[n].content
  }

  predicate Rotates<H(==), C>(versions: seq<Version<H, C>>, n: nat)
    requires 0 < n < |versions|
  {
    versions[n].hash != versions[n - 1].hash
  }

  /** Where the hash rotates, the new hash is either one the row never had, or one it had with this
      very content. Versions that leave the hash alone are not constrained. */
  predicate RotatesHonestly<H(==), C(==)>(versions: seq<Version<H, C>>) {
    forall n, m :: 0 <= m < n < |versions| && Rotates(versions, n) && versions[m].hash == versions[n].hash ==>
      versions[m].content == versions[n].content
  }

  lemma {:induction false} EqualHashEqualContent<H, C>(versions: seq<Version<H, C>>, m: nat, n: nat)
    requires Guarded(versions) && RotatesHonestly(versions)
    requires m <= n < |versions| && versions[m].hash == versions[n].hash
    ensures versions[m].content == versions[n].content
  {
    if m < n && versions[n].hash == versions[n - 1].hash {
      EqualHashEqualContent(versions, m, n - 1);
    }
  }

  /** The guard alone is not enough, and honest rotations are exactly what it lacks. */
  lemma IdentifiesExactlyWhenHonest<H, C>(versions: seq<Version<H, C>>)
    requires Guarded(versions)
    ensures HashIdentifies(versions) <==> RotatesHonestly(versions)
  {
    if RotatesHonestly(versions) {
      forall m, n | 0 <= m < n < |versions| && versions[m].hash == versions[n].hash
        ensures versions[m].content == versions[n].content
      {
        EqualHashEqualContent(versions, m, n);
      }
    }
  }
}
