/** The artifact store with its files and tables updated in place. `power` is the number of durable steps
    the machine still makes before it stops: a call that runs out of it is cut off there. */
module ArtifactStore {
  import opened Common
  import opened ArtifactSpec
  import Spec = ArtifactSpec
  import Proofs = ArtifactProofs
  import Results = ArtifactResults

  datatype Stop = Thrown(error: StoreError) | PowerLost

  function Ended<T>(r: Result<T, StoreError>): Result<T, Stop> {
    if r.Ok? then Ok(r.value) else Err(Thrown(r.error))
  }

  /** A call carries out the steps of its outcome in order, all of them and then returns or throws, or as
      many as there is power for. */
  ghost predicate Carries<T>(before: Store, power: nat, o: Outcome<T>, after: Store, left: nat, r: Result<T, Stop>) {
    if |o.steps| <= power then after == Run(before, o.steps) && left == power - |o.steps| && r == Ended(o.result)
    else after == Run(before, o.steps[..power]) && left == 0 && r == Err(PowerLost)
  }

  /** Two calls in a row carry out the chain of their outcomes. */
  lemma CarriesChain<A, B>(
      s: Store, power: nat, first: Outcome<A>, t: Store, left: nat, r: Result<A, Stop>,
      second: Outcome<B>, u: Store, rest: nat, q: Result<B, Stop>)
    requires Carries(s, power, first, t, left, r)
    requires if r.Ok? then Carries(t, left, second, u, rest, q) else u == t && rest == left && q == Err(r.error)
    ensures Carries(s, power, Chain(first, second), u, rest, q)
  {
    hide Run;
    var all := first.steps + second.steps;
    if r.Ok? {
      Proofs.RunAppend(s, first.steps, second.steps);
      if |all| > power {
        var k := power - |first.steps|;
        assert all[..power] == first.steps + second.steps[..k];
        Proofs.RunAppend(s, first.steps, second.steps[..k]);
      }
    } else if first.result.Ok? {
      assert all[..power] == first.steps[..power];
    }
  }

  lemma CarriesNothing<T>(s: Store, power: nat, r: Result<T, StoreError>)
    ensures Carries(s, power, Outcome([], r), s, power, Ended(r))
  {
  }

  class InactiveArtifactStore {
    const device: DeviceId
    var blobs: map<Digest, Digest>
    var receipts: map<Key, Receipt>
    var rows: map<Key, Row>
    var selections: map<string, Selection>
    var power: nat

    constructor (device: DeviceId, power: nat)
      ensures View() == Proofs.EmptyStore(device) && this.power == power && Proofs.StoreInv(View())
    {
      this.device, this.power := device, power;
      blobs, receipts, rows, selections := map[], map[], map[], map[];
    }

    function View(): Store
      reads this
    {
      Store(device, blobs, receipts, rows, selections)
    }

    /** One file link, file removal or database transaction. */
    method Write(step: Step) returns (r: Result<(), Stop>)
      modifies this
      ensures Carries(old(View()), old(power), Outcome([step], Ok(())), View(), power, r)
      ensures r.Ok? ==> r == Ok(()) && View() == Do(old(View()), step) && power == old(power) - 1
      ensures r.Err? ==> r == Err(PowerLost) && View() == old(View()) && power == old(power) == 0
    {
      if power == 0 {
        return Err(PowerLost);
      }
      assert [step][1..] == [];
      power := power - 1;
      match step {
        case PutBlob(d) => blobs := blobs[d := d];
        case PutReceipt(receipt) => receipts := receipts[receipt.key := receipt];
        case PutRow(k, row) => rows := rows[k := row];
        case PutSelection(id, sel) => selections := selections[id := sel];
        case DropRow(k, left) =>
          rows := rows - {k};
          if left.Some? { selections := selections[k.id := left.value]; } else { selections := selections - {k.id}; }
        case DropReceipt(k) => receipts := receipts - {k};
        case DropBlob(d) => blobs := blobs - {d};
      }
      r := Ok(());
    }

    method LandBlob(d: Digest) returns (r: Result<(), Stop>)
      modifies this
      ensures Carries(old(View()), old(power), Spec.LandBlob(old(View()), d), View(), power, r)
    {
      if d in blobs {
        if blobs[d] == d { return Ok(()); }
        return Err(Thrown(BlobDiffers));
      }
      r := Write(PutBlob(d));
    }

    method PersistReceipt(receipt: Receipt) returns (r: Result<Receipt, Stop>)
      modifies this
      ensures Carries(old(View()), old(power), Spec.PersistReceipt(old(View()), receipt), View(), power, r)
    {
      if receipt.key in receipts {
        var existing := receipts[receipt.key];
        if existing.(installedAt := receipt.installedAt) != receipt { return Err(Thrown(ReceiptImmutable)); }
        return Ok(existing);
      }
      var written := Write(PutReceipt(receipt));
      if written.Err? { return Err(written.error); }
      r := Ok(receipt);
    }

    method SaveInactiveCapability(k: Key, row: Row) returns (r: Result<(), Stop>)
      modifies this
      ensures Carries(old(View()), old(power), SaveRow(old(View()), k, row), View(), power, r)
    {
      if !RowIdText(k.id) || !VersionText(k.version) || !DigestText(row.digest) || row.device != device {
        return Err(Thrown(RowRefused));
      }
      if k in rows {
        if rows[k] != row { return Err(Thrown(RowImmutable)); }
        return Ok(());
      }
      r := Write(PutRow(k, row));
    }

    method SelectInactiveCapability(k: Key, now: Instant) returns (r: Result<Selection, Stop>)
      modifies this
      ensures Carries(old(View()), old(power), Select(old(View()), k, now), View(), power, r)
    {
      hide RowIdText, VersionText, DigestText;
      var row := Capability(View(), k);
      if row.Err? { return Err(Thrown(row.error)); }
      if row.value == None { return Err(Thrown(NotSelectable)); }
      var current := SelectionOf(View(), k.id);
      if current.Err? { return Err(Thrown(current.error)); }
      if current.value.Some? && current.value.value.current == k.version { return Ok(current.value.value); }
      var next := Selection(k.version, if current.value.Some? then Some(current.value.value.current) else None, now);
      var written := Write(PutSelection(k.id, next));
      if written.Err? { return Err(written.error); }
      r := Ok(next);
    }

    method SelectFirst(k: Key, now: Instant) returns (r: Result<(), Stop>)
      modifies this
      ensures Carries(old(View()), old(power), SelectIfNone(old(View()), k, now), View(), power, r)
    {
      hide Select, SelectionOf;
      var current := SelectionOf(View(), k.id);
      if current.Err? { return Err(Thrown(current.error)); }
      if current.value.Some? { return Ok(()); }
      var selected := SelectInactiveCapability(k, now);
      r := if selected.Ok? then Ok(()) else Err(selected.error);
    }

    /** Row and first selection, once blob and receipt are there. */
    method Record(plan: InstallPlan, receipt: Receipt, now: Instant) returns (r: Result<Receipt, Stop>)
      modifies this
      ensures Carries(old(View()), old(power), RecordInstall(old(View()), plan, receipt, now), View(), power, r)
    {
      hide SaveRow, SelectIfNone, Carries, Run, Chain;
      ghost var s, p := View(), power;
      ghost var done := Outcome([], Ok(receipt));
      var saved := SaveInactiveCapability(plan.key, Row(plan.digest, plan.device, receipt.installedAt));
      ghost var row := SaveRow(s, plan.key, Row(plan.digest, plan.device, receipt.installedAt));
      ghost var t, q := View(), power;
      ghost var selection := SelectIfNone(Run(s, row.steps), plan.key, now);
      if saved.Err? {
        r := Err(saved.error);
        CarriesChain(s, p, row, t, q, saved, Chain(selection, done), t, q, r);
        return;
      }
      CarriedOk(s, p, row, t, q, saved);
      var selected := SelectFirst(plan.key, now);
      r := if selected.Ok? then Ok(receipt) else Err(selected.error);
      CarriesNothing(View(), power, done.result);
      CarriesChain(t, q, selection, View(), power, selected, done, View(), power, r);
      CarriesChain(s, p, row, t, q, saved, Chain(selection, done), View(), power, r);
    }

    static lemma CarriedOk<T>(s: Store, p: nat, o: Outcome<T>, t: Store, q: nat, r: Result<T, Stop>)
      requires Carries(s, p, o, t, q, r)
      ensures r.Ok? ==> o.result.Ok? && r.value == o.result.value && t == Run(s, o.steps)
    {
    }

    method PersistAndRecordInstall(plan: InstallPlan, now: Instant) returns (r: Result<Receipt, Stop>)
      modifies this
      ensures Carries(old(View()), old(power), PersistAndRecord(old(View()), plan, now), View(), power, r)
    {
      hide Spec.PersistReceipt, RecordInstall, Run, Chain, Carries;
      ghost var s, p := View(), power;
      var receipt := PersistReceipt(NewReceipt(plan, now));
      ghost var o := Spec.PersistReceipt(s, NewReceipt(plan, now));
      ghost var t, q := View(), power;
      if receipt.Err? {
        r := Err(receipt.error);
        ghost var rest := if o.result.Ok? then RecordInstall(Run(s, o.steps), plan, o.result.value, now) else o;
        CarriesChain(s, p, o, t, q, receipt, rest, t, q, r);
        if o.result.Err? { ChainWithFailed(o); }
        return;
      }
      CarriedOk(s, p, o, t, q, receipt);
      r := Record(plan, receipt.value, now);
      CarriesChain(s, p, o, t, q, receipt, RecordInstall(t, plan, receipt.value, now), View(), power, r);
    }

    static lemma ChainWithFailed<T>(o: Outcome<T>)
      requires o.result.Err?
      ensures Chain(o, o) == o
    {
    }

    /** `source` is the digest of the offered file, if it is a regular file. */
    method Install(plan: InstallPlan, source: Option<Digest>, now: Instant) returns (r: Result<Receipt, Stop>)
      modifies this
      ensures Carries(old(View()), old(power), Spec.Install(old(View()), plan, source, now), View(), power, r)
      ensures old(Proofs.StoreInv(View())) ==> Proofs.StoreInv(View())
      ensures old(Proofs.StoreInv(View())) && r.Ok? ==>
        View() == Results.Installed(old(View()), plan, now) && old(Results.InstallAccepted(View(), plan, source))
    {
      hide Spec.LandBlob, PersistAndRecord, Run, Chain, Carries, Proofs.StoreInv, Proofs.Safe, PlanOk, Results.InstallAccepted;
      ghost var s, p := View(), power;
      ghost var check := CheckSource(plan, source);
      ghost var land := Spec.LandBlob(s, plan.digest);
      ghost var rest := PersistAndRecord(Run(s, land.steps), plan, now);
      CarriesNothing(s, p, check.result);
      if !PlanOk(plan) {
        r := Err(Thrown(PlanInvalid));
      } else if source == None {
        r := Err(Thrown(SourceNotRegular));
      } else if source.value != plan.digest {
        r := Err(Thrown(SourceMismatch));
      } else {
        var landed := LandBlob(plan.digest);
        ghost var t, q := View(), power;
        if landed.Err? {
          r := Err(landed.error);
        } else {
          CarriedOk(s, p, land, t, q, landed);
          r := PersistAndRecordInstall(plan, now);
        }
        CarriesChain(s, p, land, t, q, landed, rest, View(), power, r);
      }
      CarriesChain(s, p, check, s, p, Ended(check.result), Chain(land, rest), View(), power, r);
      CarriedSafely(s, p, Spec.Install(s, plan, source, now), View(), power, r);
      if Proofs.StoreInv(s) {
        Results.InstallWorks(s, plan, source, now);
      }
    }

    /** A safe list of steps leaves the invariant, however far it gets. */
    static lemma CarriedSafely<T>(s: Store, p: nat, o: Outcome<T>, t: Store, q: nat, r: Result<T, Stop>)
      requires Carries(s, p, o, t, q, r)
      ensures Proofs.Safe(s, o.steps) ==> Proofs.StoreInv(t)
      ensures r.Ok? ==> o.result.Ok? && r.value == o.result.value && t == Run(s, o.steps)
    {
      hide Proofs.Safe, Run, Proofs.StoreInv;
      if Proofs.Safe(s, o.steps) {
        Proofs.SafeAtEveryCrash(s, o.steps, if p < |o.steps| then p else |o.steps|);
        assert o.steps[..|o.steps|] == o.steps;
      }
    }

    method Upgrade(plan: InstallPlan, source: Option<Digest>, now: Instant) returns (r: Result<Selection, Stop>)
      modifies this
      ensures Carries(old(View()), old(power), Spec.Upgrade(old(View()), plan, source, now), View(), power, r)
      ensures old(Proofs.StoreInv(View())) ==> Proofs.StoreInv(View())
      ensures old(Proofs.StoreInv(View())) && r.Ok? ==>
        plan.key.id in old(selections) && View() == Results.Upgraded(old(View()), plan, now) && r.value == selections[plan.key.id]
    {
      hide Spec.Install, Select, SelectionOf, Run, Chain, Carries, Proofs.StoreInv, Proofs.Safe, PlanOk, Results.InstallAccepted;
      ghost var s, p := View(), power;
      ghost var whole := Spec.Upgrade(s, plan, source, now);
      var current := SelectionOf(View(), plan.key.id);
      if current.Err? {
        r := Err(Thrown(current.error));
        CarriesNothing(s, p, whole.result);
      } else if current.value == None || current.value.value.current == plan.key.version {
        r := Err(Thrown(NothingToUpgrade));
        CarriesNothing(s, p, whole.result);
      } else {
        ghost var install := Spec.Install(s, plan, source, now);
        var installed := Install(plan, source, now);
        ghost var t, q := View(), power;
        if installed.Err? {
          r := Err(installed.error);
        } else {
          CarriedOk(s, p, install, t, q, installed);
          r := SelectInactiveCapability(plan.key, now);
        }
        CarriesChain(s, p, install, t, q, installed, Select(Run(s, install.steps), plan.key, now), View(), power, r);
      }
      CarriedSafely(s, p, whole, View(), power, r);
      if Proofs.StoreInv(s) {
        Results.UpgradeWorks(s, plan, source, now);
      }
    }

    method Rollback(id: string, now: Instant) returns (r: Result<Selection, Stop>)
      modifies this
      ensures Carries(old(View()), old(power), Spec.Rollback(old(View()), id, now), View(), power, r)
      ensures old(Proofs.StoreInv(View())) ==> Proofs.StoreInv(View())
      ensures old(Proofs.StoreInv(View())) && r.Ok? ==> id in selections && r.value == selections[id]
    {
      hide SelectionOf, VerifyInstalled, Proofs.StoreInv, Proofs.Safe;
      ghost var s, p := View(), power;
      var current := SelectionOf(View(), id);
      if current.Err? {
        r := Err(Thrown(current.error));
      } else if current.value == None || current.value.value.previous == None {
        r := Err(Thrown(NothingToRollBack));
      } else {
        var sel := current.value.value;
        var verified := VerifyInstalled(View(), Key(id, sel.previous.value));
        if verified.Err? {
          r := Err(Thrown(verified.error));
        } else {
          var next := Selection(sel.previous.value, Some(sel.current), now);
          var written := Write(PutSelection(id, next));
          r := if written.Ok? then Ok(next) else Err(written.error);
        }
      }
      CarriedSafely(s, p, Spec.Rollback(s, id, now), View(), power, r);
      if Proofs.StoreInv(s) {
        Results.RollbackWorks(s, id, now);
      }
    }

    /** The files behind a row that is gone. */
    method RemoveFiles(k: Key, d: Digest, selected: Option<string>, receiptFails: bool, blobFails: bool) returns (r: Result<Removal, Stop>)
      modifies this
      ensures Carries(old(View()), old(power), CleanUp(old(View()), k, d, selected, receiptFails, blobFails), View(), power, r)
    {
      hide RowsReadable, Used;
      ghost var s := View();
      TwoSteps(s, DropReceipt(k), DropBlob(d));
      assert [] + [DropBlob(d)] == [DropBlob(d)];
      var pending, blobRemoved := false, false;
      if receiptFails || k !in receipts {
        pending := true;
      } else {
        var dropped := Write(DropReceipt(k));
        if dropped.Err? { return Err(dropped.error); }
      }
      SameRows(s, View(), d);
      if !RowsReadable(View()) { return Err(Thrown(RowDrifted)); }
      if !Used(View(), d) {
        if blobFails || d !in blobs {
          pending := true;
        } else {
          var dropped := Write(DropBlob(d));
          if dropped.Err? { return Err(dropped.error); }
          blobRemoved := true;
        }
      }
      r := Ok(Removal(selected, blobRemoved, pending));
    }

    static lemma SameRows(s: Store, t: Store, d: Digest)
      requires s.rows == t.rows && s.device == t.device
      ensures RowsReadable(s) <==> RowsReadable(t)
      ensures Used(s, d) <==> Used(t, d)
    {
      hide RowIdText, VersionText, DigestText;
      forall k ensures Present(s, k) <==> Present(t, k) {
        assert Capability(s, k) == Capability(t, k);
      }
      Results.StillUnused(s, t, d);
    }

    static lemma TwoSteps(s: Store, a: Step, b: Step)
      ensures Run(s, []) == s && Run(s, [a]) == Do(s, a) && Run(s, [b]) == Do(s, b)
      ensures Run(s, [a] + [b]) == Do(Do(s, a), b) && ([a] + [b])[..1] == [a] && ([a] + [b])[..0] == []
    {
      OneStep(s, a);
      OneStep(s, b);
      OneStep(Do(s, a), b);
      assert ([a] + [b])[1..] == [b];
    }

    static lemma OneStep(s: Store, a: Step)
      ensures Run(s, []) == s && Run(s, [a]) == Do(s, a)
    {
      assert [a][1..] == [];
    }

    method Uninstall(k: Key, now: Instant, receiptFails: bool, blobFails: bool) returns (r: Result<Removal, Stop>)
      modifies this
      ensures Carries(old(View()), old(power), Spec.Uninstall(old(View()), k, now, receiptFails, blobFails), View(), power, r)
      ensures old(Proofs.StoreInv(View())) ==> Proofs.StoreInv(View())
      ensures old(Proofs.StoreInv(View())) && r.Ok? ==>
        k in old(rows) && View() == Results.Uninstalled(old(View()), k, now, receiptFails, blobFails)
      ensures old(Proofs.StoreInv(View())) && r.Ok? ==>
        k in old(rows) && r.value == Results.Reported(View(), k, old(rows)[k].digest)
    {
      hide SelectionOf, VerifyInstalled, CleanUp, Proofs.StoreInv, Proofs.Safe, Run, Chain, Carries, Used;
      ghost var s, p := View(), power;
      ghost var whole := Spec.Uninstall(s, k, now, receiptFails, blobFails);
      var verified := VerifyInstalled(View(), k);
      var sel := SelectionOf(View(), k.id);
      if verified.Err? {
        r := Err(Thrown(verified.error));
        CarriesNothing(s, p, whole.result);
      } else if sel.Err? {
        r := Err(Thrown(sel.error));
        CarriesNothing(s, p, whole.result);
      } else {
        var left := if sel.value.Some? then Unselected(sel.value.value, k.version, now) else None;
        ghost var step := Outcome([DropRow(k, left)], Ok(()));
        ghost var after := Do(s, DropRow(k, left));
        var dropped := Write(DropRow(k, left));
        ghost var t, q := View(), power;
        if dropped.Err? {
          r := Err(dropped.error);
          UninstallStarts(s, k, now, receiptFails, blobFails);
          StoppedFirst(s, p, whole, t, q, r);
        } else {
          var reread := SelectionOf(View(), k.id);
          if reread.Err? {
            r := Err(Thrown(reread.error));
            CarriedOnly(s, p, DropRow(k, left), t, q, whole, r);
          } else {
            var selected := if reread.value.Some? then Some(reread.value.value.current) else None;
            r := RemoveFiles(k, verified.value.digest, selected, receiptFails, blobFails);
            ghost var files := CleanUp(after, k, verified.value.digest, selected, receiptFails, blobFails);
            CarriesChain(s, p, step, t, q, dropped, files, View(), power, r);
          }
        }
      }
      CarriedSafely(s, p, whole, View(), power, r);
      if Proofs.StoreInv(s) {
        Results.UninstallWorks(s, k, now, receiptFails, blobFails);
      }
    }

    static lemma CarriedOnly(s: Store, p: nat, step: Step, t: Store, q: nat, whole: Outcome<Removal>, r: Result<Removal, Stop>)
      requires Carries(s, p, Outcome([step], Ok(())), t, q, Ok(())) && whole.steps == [step] && r == Ended(whole.result)
      ensures Carries(s, p, whole, t, q, r)
    {
    }

    static lemma UninstallStarts(s: Store, k: Key, now: Instant, receiptFails: bool, blobFails: bool)
      requires VerifyInstalled(s, k).Ok? && SelectionOf(s, k.id).Ok?
      ensures |Spec.Uninstall(s, k, now, receiptFails, blobFails).steps| > 0
    {
      hide VerifyInstalled, SelectionOf, CleanUp;
    }

    static lemma StoppedFirst<T>(s: Store, p: nat, whole: Outcome<T>, t: Store, q: nat, r: Result<T, Stop>)
      requires p == 0 && q == 0 && t == s && r == Err(PowerLost) && |whole.steps| > 0
      ensures Carries(s, p, whole, t, q, r)
    {
    }

    /** Verifies every installed version and counts the files no installed version needs. `order` is the
        order in which the database lists the rows. */
    method VerifyRecovery(order: seq<Key>) returns (r: Result<Report, StoreError>)
      requires Lists(order, rows.Keys)
      ensures r.Ok? <==> Recoverable(View())
      ensures r.Ok? ==> r.value == RecoveryReport(View())
    {
      hide VerifyInstalled, SelectionOf, Capability, Recoverable, Lists, Present;
      for i := 0 to |order|
        invariant forall j :: 0 <= j < i ==> Present(View(), order[j])
      {
        RecoverableAt(View(), order, i);
        var row := Capability(View(), order[i]);
        RowFound(View(), order[i]);
        if row.Err? { return Err(row.error); }
        if row.value == None { return Err(RowDrifted); }
      }
      for i := 0 to |order|
        invariant forall j :: 0 <= j < i ==> VerifyInstalled(View(), order[j]).Ok?
      {
        RecoverableAt(View(), order, i);
        var verified := VerifyInstalled(View(), order[i]);
        if verified.Err? { return Err(verified.error); }
      }
      var ids: set<string> := {};
      for i := 0 to |order|
        invariant forall j :: 0 <= j < i ==> SelectionOf(View(), order[j].id).Ok?
        invariant ids == SelectedAmong(View(), order[..i])
      {
        RecoverableAt(View(), order, i);
        var selection := SelectionOf(View(), order[i].id);
        if selection.Err? { return Err(selection.error); }
        SelectedListed(View(), order[..i], order[i]);
        assert order[..i + 1] == order[..i] + [order[i]];
        if selection.value.Some? { ids := ids + {order[i].id}; }
      }
      assert order[..|order|] == order;
      RecoverableByList(View(), order);
      r := Ok(Report(|rows|, |ids|, |blobs.Keys - Digests(View())|, |receipts.Keys - rows.Keys|));
    }

    static function SelectedAmong(s: Store, keys: seq<Key>): set<string> {
      set k | k in keys && k.id in s.selections :: k.id
    }

    static lemma RecoverableAt(s: Store, order: seq<Key>, i: nat)
      requires Lists(order, s.rows.Keys) && i < |order|
      ensures Recoverable(s) ==>
        Present(s, order[i]) && VerifyInstalled(s, order[i]).Ok? && SelectionOf(s, order[i].id).Ok?
    {
      hide VerifyInstalled, SelectionOf, Capability;
      assert order[i] in order;
    }

    static lemma RowFound(s: Store, k: Key)
      ensures Present(s, k) <==> Capability(s, k).Ok? && Capability(s, k).value.Some?
    {
      hide Capability;
    }

    static lemma RecoverableByList(s: Store, order: seq<Key>)
      requires Lists(order, s.rows.Keys)
      requires forall j :: 0 <= j < |order| ==>
        Present(s, order[j]) && VerifyInstalled(s, order[j]).Ok? && SelectionOf(s, order[j].id).Ok?
      ensures Recoverable(s) && SelectedAmong(s, order) == set id | id in Ids(s) && id in s.selections
    {
      hide VerifyInstalled, SelectionOf, Capability, Present;
      forall k | k in s.rows
        ensures Present(s, k) && VerifyInstalled(s, k).Ok? && SelectionOf(s, k.id).Ok?
      {
        assert k in order;
        var j :| 0 <= j < |order| && order[j] == k;
      }
      forall id | id in Ids(s) && id in s.selections ensures id in SelectedAmong(s, order) {
        var k :| k in s.rows && k.id == id;
        assert k in order;
      }
    }

    static lemma SelectedListed(s: Store, before: seq<Key>, k: Key)
      requires SelectionOf(s, k.id).Ok?
      ensures SelectedAmong(s, before + [k]) == SelectedAmong(s, before) + if SelectionOf(s, k.id).value.Some? then {k.id} else {}
    {
      hide RowIdText, VersionText, DigestText;
      assert SelectionOf(s, k.id).value.Some? <==> k.id in s.selections;
    }

    static function Counted(steps: seq<Step>): Outcome<nat> {
      Outcome(steps, Ok(|steps|))
    }

    method DropBlobsExcept(list: seq<Digest>, keep: set<Digest>) returns (r: Result<nat, Stop>)
      modifies this
      ensures var steps := BlobDrops(list, keep);
              Carries(old(View()), old(power), Counted(steps), View(), power, r)
    {
      hide Run, Do;
      ghost var s, p, all := View(), power, BlobDrops(list, keep);
      var removed := 0;
      OneStep(s, DropBlob(""));
      assert all[..0] == [];
      for i := 0 to |list|
        invariant removed <= |all| && View() == Run(s, all[..removed]) && power == p - removed
        invariant all[removed..] == BlobDrops(list[i..], keep)
      {
        assert list[i..][0] == list[i] && list[i..][1..] == list[i + 1..];
        if list[i] !in keep {
          NextStep(s, all, removed, DropBlob(list[i]), BlobDrops(list[i + 1..], keep));
          var dropped := Write(DropBlob(list[i]));
          if dropped.Err? { return Err(PowerLost); }
          removed := removed + 1;
        }
      }
      assert list[|list|..] == [] && all[..|all|] == all;
      r := Ok(removed);
    }

    method DropReceiptsExcept(list: seq<Key>, keep: set<Key>) returns (r: Result<nat, Stop>)
      modifies this
      ensures var steps := ReceiptDrops(list, keep);
              Carries(old(View()), old(power), Counted(steps), View(), power, r)
    {
      hide Run, Do;
      ghost var s, p, all := View(), power, ReceiptDrops(list, keep);
      var removed := 0;
      OneStep(s, DropBlob(""));
      assert all[..0] == [];
      for i := 0 to |list|
        invariant removed <= |all| && View() == Run(s, all[..removed]) && power == p - removed
        invariant all[removed..] == ReceiptDrops(list[i..], keep)
      {
        assert list[i..][0] == list[i] && list[i..][1..] == list[i + 1..];
        if list[i] !in keep {
          NextStep(s, all, removed, DropReceipt(list[i]), ReceiptDrops(list[i + 1..], keep));
          var dropped := Write(DropReceipt(list[i]));
          if dropped.Err? { return Err(PowerLost); }
          removed := removed + 1;
        }
      }
      assert list[|list|..] == [] && all[..|all|] == all;
      r := Ok(removed);
    }

    static lemma NextStep(s: Store, all: seq<Step>, done: nat, step: Step, more: seq<Step>)
      requires done <= |all| && all[done..] == [step] + more
      ensures done < |all| && all[done + 1..] == more && Run(s, all[..done + 1]) == Do(Run(s, all[..done]), step)
    {
      assert all == all[..done] + all[done..];
      assert all[..done + 1] == all[..done] + [step];
      Proofs.RunAppend(s, all[..done], [step]);
      OneStep(Run(s, all[..done]), step);
    }

    /** A collection is refused when recovery would fail; otherwise it counts its removals. */
    static function Collection(s: Store, blobList: seq<Digest>, receiptList: seq<Key>): Outcome<(nat, nat)> {
      var blobSteps, receiptSteps := BlobDrops(blobList, Digests(s)), ReceiptDrops(receiptList, s.rows.Keys);
      Chain(Counted(blobSteps), Both(|blobSteps|, receiptSteps))
    }

    static function Both(removed: nat, steps: seq<Step>): Outcome<(nat, nat)> {
      Outcome(steps, Ok((removed, |steps|)))
    }

    /** Removes the files that no installed version needs, in the order in which the directories list them;
        nothing happens when recovery would fail. */
    method GarbageCollect(order: seq<Key>, blobList: seq<Digest>, receiptList: seq<Key>) returns (r: Result<(nat, nat), Stop>)
      requires Lists(order, rows.Keys) && Lists(blobList, blobs.Keys) && Lists(receiptList, receipts.Keys)
      modifies this
      ensures !old(Recoverable(View())) ==> View() == old(View()) && power == old(power) && r.Err?
      ensures old(Recoverable(View())) ==>
        Carries(old(View()), old(power), Collection(old(View()), blobList, receiptList), View(), power, r)
      ensures old(Proofs.StoreInv(View())) ==> Proofs.StoreInv(View())
      ensures old(Proofs.StoreInv(View())) && r.Ok? ==>
        blobs.Keys == Digests(View()) && receipts.Keys == rows.Keys && rows == old(rows) && selections == old(selections)
      ensures old(Proofs.StoreInv(View())) && r.Ok? ==>
        r.value == (old(RecoveryReport(View()).orphanBlobs), old(RecoveryReport(View()).orphanReceipts))
    {
      hide Run, Recoverable, Proofs.StoreInv, Proofs.Safe, Lists, Carries, BlobDrops, ReceiptDrops;
      ghost var s, p := View(), power;
      if Proofs.StoreInv(s) {
        Results.CollectWorks(s, blobList, receiptList);
        Results.CollectCounts(s, blobList, receiptList);
      }
      var verified := VerifyRecovery(order);
      if verified.Err? { return Err(Thrown(verified.error)); }
      var expectedBlobs, expectedReceipts := Digests(View()), rows.Keys;
      ghost var blobSteps, receiptSteps := BlobDrops(blobList, expectedBlobs), ReceiptDrops(receiptList, expectedReceipts);
      var removedBlobs := DropBlobsExcept(blobList, expectedBlobs);
      ghost var t, q := View(), power;
      if removedBlobs.Err? {
        r := Err(removedBlobs.error);
      } else {
        CarriedOk(s, p, Counted(blobSteps), t, q, removedBlobs);
        var removedReceipts := DropReceiptsExcept(receiptList, expectedReceipts);
        r := if removedReceipts.Ok? then Ok((removedBlobs.value, removedReceipts.value)) else Err(removedReceipts.error);
        AlsoBoth(t, q, |blobSteps|, receiptSteps, View(), power, removedReceipts);
      }
      CarriesChain(s, p, Counted(blobSteps), t, q, removedBlobs, Both(|blobSteps|, receiptSteps), View(), power, r);
      CarriedSafely(s, p, Collection(s, blobList, receiptList), View(), power, r);
    }

    static lemma AlsoBoth(s: Store, p: nat, removed: nat, steps: seq<Step>, t: Store, q: nat, r: Result<nat, Stop>)
      requires Carries(s, p, Counted(steps), t, q, r)
      ensures Carries(s, p, Both(removed, steps), t, q, if r.Ok? then Ok((removed, r.value)) else Err(r.error))
    {
    }
  }
}
