/** The backup directory: encrypted objects with their receipts, what counts as verified, and what a prune
    and a publish do to it. */
module RecoveryTargetSpec {
  import opened Common
  import opened JsonText
  import opened RetentionSpec
  import CanonicalText

  /** The path of an object below the target root, in UTF-16 code units; its receipt is filed under it. */
  type Path = Text

  /** `.receipt.json` */
  const RECEIPT_SUFFIX: Text := [0x2e, 0x72, 0x65, 0x63, 0x65, 0x69, 0x70, 0x74, 0x2e, 0x6a, 0x73, 0x6f, 0x6e]

  function ReceiptName(p: Path): Text {
    p + RECEIPT_SUFFIX
  }

  datatype StoredObject = StoredObject(size: nat, sha256: string)

  /** `lineage`: format version, project and the bundle suffix of the key are as expected. */
  datatype Receipt = Receipt(
    objectKey: ObjectKey, lineage: bool, publishedAt: Option<Instant>, encryptedBytes: nat, encryptedSha256: string)

  datatype Target = Target(objects: map<Path, StoredObject>, receipts: map<Path, Receipt>)

  /** Path resolution below the root; `None` for a key that leads out of it. */
  type Resolve = ObjectKey -> Option<Path>

  datatype PlanError = InvalidRetention
  datatype ApplyError = EscapesRoot | PairNotVerified | ChangedAfterPlanning

  /** A receipt filed beside the object it names, with the size and digest of that object. */
  function VerifyPair(t: Target, resolve: Resolve, p: Path): Option<Backup> {
    if p !in t.receipts then None
    else
      var r := t.receipts[p];
      if !r.lineage || resolve(r.objectKey) != Some(p) || r.publishedAt == None || p !in t.objects then None
      else if t.objects[p] != StoredObject(r.encryptedBytes, r.encryptedSha256) then None
      else Some(Backup(r.objectKey, r.publishedAt.value))
  }

  /** The verified backups in the order in which the directory is walked. */
  function Verified(t: Target, resolve: Resolve, walk: seq<Path>): seq<Backup> {
    if walk == [] then []
    else
      match VerifyPair(t, resolve, walk[0])
      case None => Verified(t, resolve, walk[1..])
      case Some(b) => [b] + Verified(t, resolve, walk[1..])
  }

  function Sorted(t: Target, resolve: Resolve, walk: seq<Path>): seq<Backup> {
    SortDesc(Verified(t, resolve, walk))
  }

  function PlanFor(items: seq<Backup>, r: Retention): Plan {
    var kept := Kept(items, r);
    Plan(KeyList(kept), KeyList(Where(items, Keys(items) - Keys(kept))))
  }

  datatype RetentionPlan = RetentionPlan(verifiedReceipts: nat, kept: seq<ObjectKey>, delete: seq<ObjectKey>, ignored: seq<Text>)

  /** The receipts that do not verify, with their names. */
  function Unverified(t: Target, resolve: Resolve, walk: seq<Path>): seq<(Text, Path)> {
    if walk == [] then []
    else
      (if walk[0] in t.receipts && VerifyPair(t, resolve, walk[0]) == None then [(ReceiptName(walk[0]), walk[0])] else [])
      + Unverified(t, resolve, walk[1..])
  }

  function Names(entries: seq<(Text, Path)>): seq<Text> {
    seq(|entries|, i requires 0 <= i < |entries| => entries[i].0)
  }

  function Ignored(t: Target, resolve: Resolve, walk: seq<Path>): seq<Text> {
    Names(CanonicalText.SortByKey(Unverified(t, resolve, walk)))
  }

  function Without(t: Target, paths: set<Path>): Target {
    Target(t.objects - paths, t.receipts - paths)
  }

  /** The deletions of a plan, one verified pair at a time: the directory afterwards, the number of pairs
      removed, and the error that stopped it. */
  function ApplyPlan(t: Target, resolve: Resolve, keys: seq<ObjectKey>): (Target, Result<nat, ApplyError>)
    decreases |keys|
  {
    if keys == [] then (t, Ok(0))
    else
      var p := resolve(keys[0]);
      if p == None then (t, Err(EscapesRoot))
      else
        var b := VerifyPair(t, resolve, p.value);
        if b == None then (t, Err(PairNotVerified))
        else if b.value.key != keys[0] then (t, Err(ChangedAfterPlanning))
        else
          var rest := ApplyPlan(Without(t, {p.value}), resolve, keys[1..]);
          (rest.0, if rest.1.Ok? then Ok(rest.1.value + 1) else rest.1)
  }

  function Pruned(t: Target, resolve: Resolve, walk: seq<Path>, r: Retention): Target {
    ApplyPlan(t, resolve, PlanFor(Sorted(t, resolve, walk), r).delete).0
  }

  /** A new object with its receipt. */
  datatype Publication = Publication(path: Path, stored: StoredObject, receipt: Receipt)

  function Publish(t: Target, n: Publication): Target {
    Target(t.objects[n.path := n.stored], t.receipts[n.path := n.receipt])
  }

  function PublishEach(t: Target, news: seq<Publication>): Target {
    if news == [] then t else Publish(PublishEach(t, news[..|news| - 1]), news[|news| - 1])
  }

  /** The `cycle` command, once for each publication, each with a walk of its own. */
  function CycleEach(t: Target, resolve: Resolve, walks: seq<seq<Path>>, news: seq<Publication>, r: Retention): Target
    requires |walks| == |news|
  {
    if news == [] then t
    else
      var last := |news| - 1;
      Pruned(Publish(CycleEach(t, resolve, walks[..last], news[..last], r), news[last]), resolve, walks[last], r)
  }

  /** The walk visits every receipt once. */
  ghost predicate WalksAll(t: Target, walk: seq<Path>) {
    Distinct(walk) && forall p :: p in t.receipts ==> p in walk
  }

  /** The walk of each cycle visits every receipt that is there by then. */
  ghost predicate WalkEach(t: Target, resolve: Resolve, walks: seq<seq<Path>>, news: seq<Publication>, r: Retention)
    requires |walks| == |news|
  {
    news != [] ==>
      var last := |news| - 1;
      && WalkEach(t, resolve, walks[..last], news[..last], r)
      && WalksAll(Publish(CycleEach(t, resolve, walks[..last], news[..last], r), news[last]), walks[last])
  }
}
