/** What the artifact store keeps at every crash point, and what its operations achieve together. */
module ArtifactProofs {
  import opened Common
  import opened ArtifactSpec

  // ---- The invariant ----

  ghost predicate BlobsNamed(s: Store) {
    forall d :: d in s.blobs ==> s.blobs[d] == d
  }

  ghost predicate ReceiptsFiled(s: Store) {
    forall k :: k in s.receipts ==> s.receipts[k].key == k
  }

  predicate KeyOk(k: Key) {
    CapabilityText(k.id) && RowIdText(k.id) && VersionText(k.version)
  }

  predicate Backed(s: Store, k: Key)
    requires k in s.rows
  {
    && KeyOk(k) && DigestText(s.rows[k].digest) && s.rows[k].device == s.device
    && k in s.receipts && s.receipts[k].digest == s.rows[k].digest
    && s.receipts[k].device == s.rows[k].device && s.receipts[k].installedAt == s.rows[k].updatedAt
    && s.rows[k].digest in s.blobs
  }

  /** Every row has its matching receipt and blob. */
  ghost predicate RowsBacked(s: Store) {
    forall k :: k in s.rows ==> Backed(s, k)
  }

  predicate SelectionInstalled(s: Store, id: string, sel: Selection) {
    && Key(id, sel.current) in s.rows
    && (sel.previous.Some? ==> Key(id, sel.previous.value) in s.rows && sel.previous.value != sel.current)
  }

  /** Current and previous versions are installed and distinct. */
  ghost predicate SelectionsInstalled(s: Store) {
    forall id :: id in s.selections ==> SelectionInstalled(s, id, s.selections[id])
  }

  ghost predicate StoreInv(s: Store) {
    BlobsNamed(s) && ReceiptsFiled(s) && RowsBacked(s) && SelectionsInstalled(s)
  }

  function EmptyStore(device: DeviceId): Store {
    Store(device, map[], map[], map[], map[])
  }

  /** The invariant holds before, between and after the steps: at every point where a crash can fall. */
  ghost predicate Safe(s: Store, steps: seq<Step>)
    decreases |steps|
  {
    StoreInv(s) && (steps != [] ==> Safe(Do(s, steps[0]), steps[1..]))
  }

  lemma {:induction false} SafeAtEveryCrash(s: Store, steps: seq<Step>, k: nat)
    requires Safe(s, steps) && k <= |steps|
    ensures StoreInv(Run(s, steps[..k]))
    decreases k
  {
    hide StoreInv;
    if k > 0 {
      assert steps[..k][1..] == steps[1..][..k - 1];
      SafeAtEveryCrash(Do(s, steps[0]), steps[1..], k - 1);
    }
  }

  lemma {:induction false} RunAppend(s: Store, a: seq<Step>, b: seq<Step>)
    ensures Run(s, a + b) == Run(Run(s, a), b)
    decreases |a|
  {
    hide Do;
    if a == [] {
      assert a + b == b;
    } else {
      assert (a + b)[1..] == a[1..] + b;
      RunAppend(Do(s, a[0]), a[1..], b);
    }
  }

  lemma {:induction false} SafeAppend(s: Store, a: seq<Step>, b: seq<Step>)
    requires Safe(s, a) && Safe(Run(s, a), b)
    ensures Safe(s, a + b)
    decreases |a|
  {
    hide StoreInv, Do;
    if a == [] {
      assert a + b == b;
    } else {
      assert (a + b)[1..] == a[1..] + b;
      SafeAppend(Do(s, a[0]), a[1..], b);
    }
  }

  lemma SafeNone(s: Store)
    requires StoreInv(s)
    ensures Safe(s, []) && Run(s, []) == s
  {
  }

  lemma SafeOne(s: Store, step: Step)
    requires StoreInv(s) && StoreInv(Do(s, step))
    ensures Safe(s, [step]) && Run(s, [step]) == Do(s, step)
  {
    assert [step][1..] == [];
  }

  // ---- Single steps ----

  lemma PutBlobKeeps(s: Store, d: Digest)
    requires StoreInv(s)
    ensures StoreInv(Do(s, PutBlob(d)))
  {
    hide KeyOk;
    var t := Do(s, PutBlob(d));
    forall k | k in t.rows ensures Backed(t, k) { assert Backed(s, k); }
    forall id | id in t.selections ensures SelectionInstalled(t, id, t.selections[id]) {
      assert SelectionInstalled(s, id, s.selections[id]);
    }
  }

  lemma PutReceiptKeeps(s: Store, r: Receipt)
    requires StoreInv(s) && r.key !in s.receipts
    ensures StoreInv(Do(s, PutReceipt(r)))
  {
    hide KeyOk;
    var t := Do(s, PutReceipt(r));
    forall k | k in t.rows ensures Backed(t, k) { assert Backed(s, k); }
    forall id | id in t.selections ensures SelectionInstalled(t, id, t.selections[id]) {
      assert SelectionInstalled(s, id, s.selections[id]);
    }
  }

  /** A row may be written once its receipt and blob are there. */
  ghost predicate Ready(s: Store, k: Key, row: Row) {
    && KeyOk(k) && DigestText(row.digest) && row.device == s.device && row.digest in s.blobs
    && k in s.receipts && s.receipts[k].digest == row.digest && s.receipts[k].device == row.device
    && s.receipts[k].installedAt == row.updatedAt
  }

  lemma PutRowKeeps(s: Store, k: Key, row: Row)
    requires StoreInv(s) && Ready(s, k, row)
    ensures StoreInv(Do(s, PutRow(k, row)))
  {
    hide KeyOk;
    var t := Do(s, PutRow(k, row));
    forall j | j in t.rows ensures Backed(t, j) { assert j != k ==> Backed(s, j); }
    forall id | id in t.selections ensures SelectionInstalled(t, id, t.selections[id]) {
      assert SelectionInstalled(s, id, s.selections[id]);
    }
  }

  lemma PutSelectionKeeps(s: Store, id: string, sel: Selection)
    requires StoreInv(s) && SelectionInstalled(s, id, sel)
    ensures StoreInv(Do(s, PutSelection(id, sel)))
  {
    hide KeyOk;
    var t := Do(s, PutSelection(id, sel));
    forall k | k in t.rows ensures Backed(t, k) { assert Backed(s, k); }
    forall i | i in t.selections ensures SelectionInstalled(t, i, t.selections[i]) {
      assert i != id ==> SelectionInstalled(s, i, s.selections[i]);
    }
  }

  lemma DropRowKeeps(s: Store, k: Key, left: Option<Selection>)
    requires StoreInv(s)
    requires left.Some? ==> SelectionInstalled(s, k.id, left.value) && left.value.current != k.version && left.value.previous != Some(k.version)
    ensures StoreInv(Do(s, DropRow(k, left)))
  {
    hide KeyOk;
    var t := Do(s, DropRow(k, left));
    forall j | j in t.rows ensures Backed(t, j) { assert Backed(s, j); }
    forall i | i in t.selections ensures SelectionInstalled(t, i, t.selections[i]) {
      if i != k.id {
        assert SelectionInstalled(s, i, s.selections[i]);
      }
    }
  }

  lemma DropReceiptKeeps(s: Store, k: Key)
    requires StoreInv(s) && k !in s.rows
    ensures StoreInv(Do(s, DropReceipt(k)))
  {
    hide KeyOk;
    var t := Do(s, DropReceipt(k));
    forall j | j in t.rows ensures Backed(t, j) { assert Backed(s, j); }
    forall i | i in t.selections ensures SelectionInstalled(t, i, t.selections[i]) {
      assert SelectionInstalled(s, i, s.selections[i]);
    }
  }

  lemma DropBlobKeeps(s: Store, d: Digest)
    requires StoreInv(s) && !Used(s, d)
    ensures StoreInv(Do(s, DropBlob(d)))
  {
    hide KeyOk;
    var t := Do(s, DropBlob(d));
    forall j | j in t.rows ensures Backed(t, j) { assert Backed(s, j); }
    forall i | i in t.selections ensures SelectionInstalled(t, i, t.selections[i]) {
      assert SelectionInstalled(s, i, s.selections[i]);
    }
  }

  // ---- Reading never finds drift ----

  lemma RowPresent(s: Store, k: Key)
    requires StoreInv(s)
    ensures k in s.rows ==> Capability(s, k) == Ok(Some(s.rows[k])) && Present(s, k) && KeyOk(k)
    ensures Present(s, k) ==> k in s.rows
    ensures KeyOk(k) && k !in s.rows ==> Capability(s, k) == Ok(None)
    ensures Capability(s, k) != Err(RowDrifted)
  {
    if k in s.rows { assert Backed(s, k); }
  }

  /** The drift check of a selection never fires. */
  lemma SelectionReadable(s: Store, id: string)
    requires StoreInv(s)
    ensures RowIdText(id) ==> SelectionOf(s, id) == Ok(if id in s.selections then Some(s.selections[id]) else None)
    ensures !RowIdText(id) ==> SelectionOf(s, id) == Err(IdentityInvalid)
    ensures id in s.selections ==> RowIdText(id)
    ensures SelectionOf(s, id) != Err(SelectionDrifted)
  {
    hide StoreInv, Capability, KeyOk, RowIdText, Present;
    if id in s.selections {
      var sel := s.selections[id];
      assert SelectionInstalled(s, id, sel) by { InvSelection(s, id); }
      RowPresent(s, Key(id, sel.current));
      KeyOkParts(Key(id, sel.current));
      if sel.previous.Some? { RowPresent(s, Key(id, sel.previous.value)); }
    }
  }

  lemma InvSelection(s: Store, id: string)
    requires StoreInv(s)
    ensures id in s.selections ==> SelectionInstalled(s, id, s.selections[id])
  {
  }

  lemma KeyOkParts(k: Key)
    ensures KeyOk(k) ==> CapabilityText(k.id) && RowIdText(k.id) && VersionText(k.version)
  {
  }

  /** Every installed version verifies: its receipt and blob are there and match. */
  lemma InstalledVerifies(s: Store, k: Key)
    requires StoreInv(s)
    ensures k in s.rows ==> VerifyInstalled(s, k) == Ok(s.receipts[k]) && k in s.receipts && s.receipts[k].digest == s.rows[k].digest
    ensures VerifyInstalled(s, k).Ok? ==> k in s.rows
  {
    hide CapabilityText, RowIdText, VersionText, DigestText;
    if k in s.rows {
      assert Backed(s, k);
      RowPresent(s, k);
    }
  }

  /** So recovery succeeds at every crash point. */
  lemma AlwaysRecoverable(s: Store)
    requires StoreInv(s)
    ensures Recoverable(s)
  {
    hide StoreInv, Capability, KeyOk, RowIdText, Present, SelectionOf, VerifyInstalled;
    forall k | k in s.rows
      ensures Present(s, k) && VerifyInstalled(s, k).Ok? && SelectionOf(s, k.id).Ok?
    {
      RowPresent(s, k);
      InstalledVerifies(s, k);
      KeyOkParts(k);
      SelectionReadable(s, k.id);
    }
  }
}
