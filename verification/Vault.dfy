/**
 * The credential vault: sealed rows, a key file, a staged key file, and a rotation that can be
 * interrupted anywhere.
 *
 * The cipher is ideal: unsealing succeeds exactly under the key and the associated data it was sealed with.
 */
module Vault {
  import opened Prelude

  type Key = nat

  /** What a stored ciphertext is: a genuine seal, or bytes no seal produced. */
  datatype Sealed = Genuine(key: Key, aad: string, plain: string) | Forged(bytes: nat)

  function Seal(key: Key, plain: string, aad: string): Sealed { Genuine(key, aad, plain) }

  function Unseal(key: Key, sealed: Sealed, aad: string): Option<string> {
    if sealed.Genuine? && sealed.key == key && sealed.aad == aad then Some(sealed.plain) else None
  }

  const VERIFIER_KEY := "verifier"
  const VERIFIER_PLAINTEXT := "openclaw-agent-harness/vault/v1"

  datatype Row = Row(kind: string, sealed: Sealed, notes: Option<string>, createdAt: int, updatedAt: int)

  /** Everything that survives the process: committed database state and the two key files. */
  datatype Disk = Disk(
    rows: map<string, Row>,
    verifier: Option<Sealed>,
    keyFile: Option<Key>,
    staged: Option<Key>)
  {
    /** `k` unseals the verifier and every row not in `damaged`, each under its own service name. */
    predicate OpenedBut(k: Key, damaged: set<string>) {
      && (verifier.Some? ==> Unseal(k, verifier.value, VERIFIER_KEY) == Some(VERIFIER_PLAINTEXT))
      && (forall s | s in rows && s !in damaged :: Unseal(k, rows[s].sealed, s).Some?)
    }

    predicate OpenedBy(k: Key) { OpenedBut(k, {}) }

    /** No row is stored before the verifier is. */
    predicate Ordered() { rows != map[] ==> verifier.Some? }

    /** One of the two key files opens the vault, damaged rows apart. */
    predicate Recoverable(damaged: set<string>) {
      || (keyFile.Some? && OpenedBut(keyFile.value, damaged))
      || (staged.Some? && OpenedBut(staged.value, damaged))
    }

    /** What the process leaves behind at any instant: a fresh directory or a recoverable vault. */
    predicate SoundBut(damaged: set<string>) {
      && Ordered()
      && (Recoverable(damaged) || (keyFile.None? && rows == map[] && verifier.None?))
    }

    predicate Sound() { SoundBut({}) }

    /** The secrets with their creation times, as a reader with key `k` sees them. */
    function Contents(k: Key): map<string, (Option<string>, int)> {
      map s | s in rows :: (Unseal(k, rows[s].sealed, s), rows[s].createdAt)
    }
  }

  /** How opening a vault ends, and what it leaves on disk. */
  datatype Opening = Ready(key: Key, disk: Disk) | WrongKey(disk: Disk)

  /** Check the key against the verifier, or write the verifier. */
  function VerifyKey(disk: Disk, key: Key): Opening {
    match disk.verifier
    case None => Ready(key, disk.(verifier := Some(Seal(key, VERIFIER_PLAINTEXT, VERIFIER_KEY))))
    case Some(v) =>
      if Unseal(key, v, VERIFIER_KEY) == Some(VERIFIER_PLAINTEXT) then Ready(key, disk) else WrongKey(disk)
  }

  /** The key comes from the environment, else the key file, else it is generated and the file written. */
  function KeyFor(disk: Disk, env: Option<Key>, generated: Key): Key { env.GetOr(disk.keyFile.GetOr(generated)) }

  function WithKeyFile(disk: Disk, env: Option<Key>, generated: Key): Disk {
    if env.Some? then disk else disk.(keyFile := Some(KeyFor(disk, env, generated)))
  }

  function OpenWith(disk: Disk, env: Option<Key>, generated: Key): Opening {
    VerifyKey(WithKeyFile(disk, env, generated), KeyFor(disk, env, generated))
  }

  function Reseal(key: Key, newKey: Key, disk: Disk): Disk {
    disk.(rows := map s | s in disk.rows ::
                    disk.rows[s].(sealed := Seal(newKey, Unseal(key, disk.rows[s].sealed, s).GetOr(""), s)),
          verifier := Some(Seal(newKey, VERIFIER_PLAINTEXT, VERIFIER_KEY)))
  }

  /** Re-encryption changes no secret, and the new key opens everything. */
  lemma ResealKeeps(disk: Disk, key: Key, newKey: Key)
    requires disk.OpenedBy(key)
    ensures var after := Reseal(key, newKey, disk);
      after.OpenedBy(newKey) && after.verifier.Some? && after.Contents(newKey) == disk.Contents(key) && after.rows.Keys == disk.rows.Keys
  {
  }

  /** How a rotation ends: done, or undone with the staged file removed or left behind. */
  datatype RotationEnd = Done | Undone(unlinked: bool)

  /** What the disk holds after each durable step of a rotation. */
  function RotationInstants(disk: Disk, key: Key, newKey: Key, end: RotationEnd): seq<Disk> {
    var staged := disk.(staged := Some(newKey));
    var resealed := Reseal(key, newKey, staged);
    match end
    case Done => [staged, resealed, resealed.(keyFile := Some(newKey), staged := None)]
    case Undone(unlinked) => if unlinked then [staged, staged.(staged := None)] else [staged]
  }

  /** Whatever the instant, a vault its key file opens stays one that some key file opens. */
  lemma RotationIsSound(disk: Disk, key: Key, newKey: Key, end: RotationEnd)
    requires disk.OpenedBy(key) && disk.keyFile == Some(key) && disk.verifier.Some?
    ensures forall d | d in RotationInstants(disk, key, newKey, end) :: d.Sound()
  {
    var staged := disk.(staged := Some(newKey));
    ResealKeeps(staged, key, newKey);
    var resealed := Reseal(key, newKey, staged);
    assert staged.Sound() && staged.(staged := None).Sound();
    assert resealed.OpenedBut(newKey, {}) && resealed.Sound();
    assert resealed.(keyFile := Some(newKey), staged := None).OpenedBut(newKey, {});
  }

  class CredentialVault {
    var disk: Disk
    var key: Key
    const fromEnv: bool                // the key came from the environment, not from a file
    /** Every state the disk has been in since the process started, oldest first. */
    ghost var instants: seq<Disk>

    /** The key is the vault's; single rows may be damaged. */
    ghost predicate Valid()
      reads this
    {
      && disk.verifier == Some(Seal(key, VERIFIER_PLAINTEXT, VERIFIER_KEY))
      && instants != [] && instants[|instants| - 1] == disk
      && (!fromEnv ==> disk.keyFile == Some(key))
    }

    /** Opening what a process left behind with the key from the file or a new one; it throws on a wrong key. */
    constructor (found: Disk, generated: Key)
      requires OpenWith(found, None, generated).Ready?
      ensures Valid() && !fromEnv && disk.rows == found.rows
      ensures Ready(key, disk) == OpenWith(found, None, generated)
      // The key file is renamed into place before the verifier row is written.
      ensures instants == [found, found.(keyFile := Some(key)), disk]
      // A key file that is there is taken as it is; only without one is a key generated and written.
      ensures key == disk.keyFile.value == if found.keyFile.Some? then found.keyFile.value else generated
      ensures found.Sound() ==> disk.OpenedBy(key) && forall d | d in instants :: d.Sound()
    {
      var opening := OpenWith(found, None, generated);
      disk, key, fromEnv := opening.disk, opening.key, false;
      instants := [found, found.(keyFile := Some(opening.key)), opening.disk];
      new;
      if found.Sound() { OpeningIsSound(found, generated); }
    }

    /** Opening with a key from the environment. */
    constructor WithEnvironmentKey(found: Disk, env: Key)
      requires OpenWith(found, Some(env), 0).Ready?
      ensures Valid() && fromEnv && Ready(key, disk) == OpenWith(found, Some(env), 0)
      ensures disk == found.(verifier := disk.verifier) && key == env
    {
      var opening := OpenWith(found, Some(env), 0);
      disk, key, fromEnv := opening.disk, opening.key, true;
      instants := [found, opening.disk];
    }

    method Get(service: string) returns (r: Option<string>, corrupt: bool)
      ensures service !in disk.rows ==> r.None? && !corrupt
      ensures service in disk.rows ==> corrupt == Unseal(key, disk.rows[service].sealed, service).None?
      ensures service in disk.rows ==> r == disk.Contents(key)[service].0
      ensures disk.OpenedBy(key) ==> !corrupt && (r.Some? <==> service in disk.Contents(key))
      // A row sealed for another service, as by moving ciphertext between rows, is a fault, not a value.
      ensures service in disk.rows && disk.rows[service].sealed.Genuine? && disk.rows[service].sealed.aad != service ==> corrupt
    {
      if service !in disk.rows {
        return None, false;
      }
      r := Unseal(key, disk.rows[service].sealed, service);
      corrupt := r.None?;
    }

    method Set(service: string, value: string, kind: string, notes: Option<string>, now: int) returns (ok: bool)
      requires Valid()
      modifies this
      ensures Valid() && key == old(key) && instants == old(instants) + if ok then [disk] else []
      ensures !fromEnv && old(disk).OpenedBy(key) ==> disk.OpenedBy(key) && disk.Sound()
      ensures ok <==> !Blank(service) && value != ""
      ensures !ok ==> disk == old(disk)
      ensures ok ==> disk.Contents(key) == old(disk.Contents(key))[service := (Some(value),
                       if service in old(disk).rows then old(disk).rows[service].createdAt else now)]
      ensures ok ==> service in disk.rows && disk.rows[service].updatedAt == now
      ensures ok ==> disk.rows[service].kind == kind && disk.rows[service].notes == notes
      ensures disk.keyFile == old(disk).keyFile && disk.staged == old(disk).staged && disk.verifier == old(disk).verifier
    {
      if Blank(service) || value == "" {
        return false;
      }
      var sealed := Seal(key, value, service);
      var createdAt := if service in disk.rows then disk.rows[service].createdAt else now;
      disk := disk.(rows := disk.rows[service := Row(kind, sealed, notes, createdAt, now)]);
      instants := instants + [disk];
      ok := true;
    }

    method Delete(service: string) returns (removed: bool)
      requires Valid()
      modifies this
      ensures Valid() && key == old(key) && instants == old(instants) + [disk]
      ensures !fromEnv && old(disk).OpenedBy(key) ==> disk.OpenedBy(key) && disk.Sound()
      ensures removed <==> service in old(disk).rows
      ensures disk == old(disk).(rows := old(disk).rows - {service})
      ensures disk.Contents(key) == old(disk.Contents(key)) - {service}
    {
      removed := service in disk.rows;
      disk := disk.(rows := disk.rows - {service});
      instants := instants + [disk];
    }

    /**
     * Re-encrypt every row under a fresh key. `order` is the order the rows come back in. `begins` says that they
     * can be read and a transaction begun; `failing` is the row update that fails, or |order| for the verifier or
     * the COMMIT; `unlinks` says that the staged file can be removed after the rollback.
     */
    method Rotate(newKey: Key, order: seq<string>, begins: bool, failing: Option<nat>, unlinks: bool) returns (ok: bool)
      requires Valid()
      requires forall s :: s in order <==> s in disk.rows
      modifies this
      ensures Valid()
      ensures ok <==> !fromEnv && begins && (failing.None? || failing.value > |order|) && old(disk).OpenedBy(old(key))
      ensures fromEnv ==> disk == old(disk) && instants == old(instants)
      ensures !fromEnv ==>
        instants == old(instants) + RotationInstants(old(disk), old(key), newKey, if ok then Done else Undone(begins && unlinks))
      ensures !fromEnv && old(disk).OpenedBy(old(key)) ==>
        disk.OpenedBy(key) && forall i | |old(instants)| <= i < |instants| :: instants[i].Sound()
      ensures key == if ok then newKey else old(key)
      ensures disk.Contents(key) == old(disk.Contents(key)) && disk.rows.Keys == old(disk).rows.Keys
      ensures !ok ==> disk.rows == old(disk).rows && disk.verifier == old(disk).verifier
      // Nothing but the ciphertext of a row changes.
      ensures forall s | s in disk.rows :: disk.rows[s] == old(disk).rows[s].(sealed := disk.rows[s].sealed)
      ensures ok ==> disk.keyFile == Some(newKey) && disk.staged == None
    {
      if fromEnv {
        return false;
      }
      ghost var before, end := disk, Undone(begins && unlinks);
      disk := disk.(staged := Some(newKey));
      instants := instants + [disk];
      ok := false;
      if begins {
        var rows;
        rows, ok := ResealRows(newKey, order, failing);
        if ok {
          disk := disk.(rows := rows, verifier := Some(Seal(newKey, VERIFIER_PLAINTEXT, VERIFIER_KEY)));
          assert disk == Reseal(key, newKey, before.(staged := Some(newKey)));
          ResealKeeps(before.(staged := Some(newKey)), key, newKey);
          instants := instants + [disk];
          disk := disk.(keyFile := Some(newKey), staged := None);
          instants := instants + [disk];
          key, end := newKey, Done;
        } else if unlinks {
          disk := disk.(staged := None);
          instants := instants + [disk];
        }
      }
      assert instants == old(instants) + RotationInstants(before, old(key), newKey, end);
      if before.OpenedBy(old(key)) { RotationIsSound(before, old(key), newKey, end); }
    }

    /** The transaction's rows, which nobody else sees until COMMIT. */
    method ResealRows(newKey: Key, order: seq<string>, failing: Option<nat>) returns (rows: map<string, Row>, ok: bool)
      requires forall s :: s in order <==> s in disk.rows
      ensures ok ==> rows == Reseal(key, newKey, disk).rows
      ensures ok <==> (failing.None? || failing.value > |order|)
                      && forall s | s in disk.rows :: Unseal(key, disk.rows[s].sealed, s).Some?
    {
      rows := disk.rows;
      for i := 0 to |order|
        invariant rows.Keys == disk.rows.Keys
        invariant forall s | s in rows ::
          rows[s] == if s in order[..i] then Reseal(key, newKey, disk).rows[s] else disk.rows[s]
        invariant failing.None? || failing.value >= i
        invariant forall s | s in order[..i] :: Unseal(key, disk.rows[s].sealed, s).Some?
      {
        var service := order[i];
        var plain := Unseal(key, disk.rows[service].sealed, service);
        if plain.None? || failing == Some(i) {
          return rows, false;
        }
        rows := rows[service := rows[service].(sealed := Seal(newKey, plain.value, service))];
        assert order[..i + 1] == order[..i] + [service];
      }
      assert order[..|order|] == order;
      ok := failing != Some(|order|);
    }
  }

  lemma OpeningIsSound(found: Disk, generated: Key)
    requires found.Sound() && OpenWith(found, None, generated).Ready?
    ensures var o := OpenWith(found, None, generated);
      && o.disk.OpenedBy(o.key) && o.disk.keyFile == Some(o.key) && o.disk.verifier.Some? && o.disk.rows == found.rows
      && found.(keyFile := Some(o.key)).Sound() && o.disk.Sound()
  {
  }

  /** Once the verifier exists, a vault opens exactly under the key that sealed it. */
  lemma OpensIff(disk: Disk, sealedUnder: Key, env: Option<Key>, generated: Key)
    requires disk.verifier == Some(Seal(sealedUnder, VERIFIER_PLAINTEXT, VERIFIER_KEY))
    ensures var r := OpenWith(disk, env, generated);
      && (r.Ready? <==> env.GetOr(disk.keyFile.GetOr(generated)) == sealedUnder)
      && r.disk.rows == disk.rows && r.disk.verifier == disk.verifier
  {
  }

  // ---- Every crash point of every history -------------------------------------------------

  datatype Process =
    | Down
    | Opening(key: Key)                   // the key file is there, the verifier not yet looked at
    | Idle(key: Key)
    | Rotating(key: Key, newKey: Key)     // the new key is staged, the transaction not committed
    | Switching(newKey: Key)              // committed, the staged key not yet renamed into place

  /** `damaged`: rows something other than the vault has written to since they were last sealed. */
  datatype World = World(disk: Disk, process: Process, damaged: set<string>)

  datatype Event =
    | Boot(generated: Key)
    | Verify
    | Put(service: string, row: Row)
    | Drop(service: string)
    | StageKey(newKey: Key)
    | Commit
    | GiveUp(unlinked: bool)              // rolled back, or thrown before the transaction began
    | RenameKey
    | Damage(service: string, sealed: Sealed)
    | Crash

  predicate Enabled(w: World, e: Event) {
    match e
    case Boot(_) => w.process.Down?
    case Verify => w.process.Opening?
    case Put(service, row) => w.process.Idle? && row.sealed.Genuine? && row.sealed == Seal(w.process.key, row.sealed.plain, service)
    case Drop(_) => w.process.Idle?
    case StageKey(newKey) => w.process.Idle? && newKey != w.process.key
    // The transaction throws at the first row that does not unseal.
    case Commit => w.process.Rotating? && w.disk.OpenedBy(w.process.key)
    case GiveUp(_) => w.process.Rotating?
    case RenameKey => w.process.Switching?
    case Damage(service, _) => service in w.disk.rows
    case Crash => true
  }

  function Apply(w: World, e: Event): World
    requires Enabled(w, e)
  {
    var d := w.disk;
    match e
    case Boot(generated) => w.(disk := WithKeyFile(d, None, generated), process := Opening(KeyFor(d, None, generated)))
    case Verify =>
      var opening := VerifyKey(d, w.process.key);
      w.(disk := opening.disk, process := if opening.Ready? then Idle(opening.key) else Down)
    case Put(service, row) => w.(disk := d.(rows := d.rows[service := row]), damaged := w.damaged - {service})
    case Drop(service) => w.(disk := d.(rows := d.rows - {service}), damaged := w.damaged - {service})
    case StageKey(newKey) => w.(disk := d.(staged := Some(newKey)), process := Rotating(w.process.key, newKey))
    case Commit => World(Reseal(w.process.key, w.process.newKey, d), Switching(w.process.newKey), {})
    case GiveUp(unlinked) => w.(disk := if unlinked then d.(staged := None) else d, process := Idle(w.process.key))
    case RenameKey => w.(disk := d.(keyFile := d.staged, staged := None), process := Idle(w.process.newKey))
    case Damage(service, sealed) =>
      w.(disk := d.(rows := d.rows[service := d.rows[service].(sealed := sealed)]), damaged := w.damaged + {service})
    case Crash => w.(process := Down)
  }

  /** The key file opens the vault, damaged rows apart; a fresh directory counts. */
  predicate KeyFileOpens(d: Disk, damaged: set<string>) {
    if d.keyFile.Some? then d.OpenedBut(d.keyFile.value, damaged) && d.Ordered() else d.rows == map[] && d.verifier.None?
  }

  /** `gap`: the last rotation committed and its key was not renamed into place. */
  ghost predicate Inv(w: World, gap: bool) {
    var d, p := w.disk, w.process;
    if gap then
      && d.staged.Some? && d.OpenedBut(d.staged.value, w.damaged) && d.verifier.Some?
      && d.keyFile.Some? && d.keyFile != d.staged
      && (p.Down? || p == Opening(d.keyFile.value) || p == Switching(d.staged.value))
    else
      && KeyFileOpens(d, w.damaged)
      && match p
         case Down => true
         case Opening(k) => d.keyFile == Some(k)
         case Idle(k) => d.keyFile == Some(k) && d.verifier.Some?
         case Rotating(k, n) => d.keyFile == Some(k) && d.verifier.Some? && d.staged == Some(n) && n != k
         case Switching(_) => false
  }

  function GapAfter(gap: bool, e: Event): bool {
    e.Commit? || (gap && !e.RenameKey?)
  }

  lemma StepSound(w: World, gap: bool, e: Event)
    requires Inv(w, gap) && Enabled(w, e)
    ensures Inv(Apply(w, e), GapAfter(gap, e))
  {
    if e.Commit? { ResealKeeps(w.disk, w.process.key, w.process.newKey); }
  }

  ghost predicate Run(ws: seq<World>, es: seq<Event>) {
    && |ws| == |es| + 1
    && ws[0] == World(Disk(map[], None, None, None), Down, {})
    && forall k | 0 <= k < |es| :: Enabled(ws[k], es[k]) && ws[k + 1] == Apply(ws[k], es[k])
  }

  /** The last rotation to commit before point k has not been finished. */
  function Unfinished(es: seq<Event>, k: nat): bool
    requires k <= |es|
  {
    k > 0 && GapAfter(Unfinished(es, k - 1), es[k - 1])
  }

  /**
   * At every point of every history from an empty directory, crashes and reopenings included, one of the two
   * key files opens the verifier and every committed row nobody else has damaged, and it is the key file itself
   * exactly unless the last rotation committed without getting to its rename.
   */
  lemma {:induction false} EveryCrashPoint(ws: seq<World>, es: seq<Event>, k: nat)
    requires Run(ws, es) && k <= |es|
    ensures ws[k].disk.SoundBut(ws[k].damaged) && Inv(ws[k], Unfinished(es, k))
    ensures !Unfinished(es, k) ==> KeyFileOpens(ws[k].disk, ws[k].damaged)
    ensures Unfinished(es, k) ==> ws[k].disk.staged.Some? && ws[k].disk.OpenedBut(ws[k].disk.staged.value, ws[k].damaged)
                                  && !KeyFileOpens(ws[k].disk, ws[k].damaged)
  {
    if k > 0 {
      EveryCrashPoint(ws, es, k - 1);
      StepSound(ws[k - 1], Unfinished(es, k - 1), es[k - 1]);
    }
  }

  /** While only the vault writes to its rows, none counts as damaged. */
  lemma {:induction false} NothingDamaged(ws: seq<World>, es: seq<Event>, k: nat)
    requires Run(ws, es) && k <= |es| && forall j | 0 <= j < k :: !es[j].Damage?
    ensures ws[k].damaged == {}
  {
    if k > 0 {
      NothingDamaged(ws, es, k - 1);
    }
  }
}
