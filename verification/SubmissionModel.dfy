/**
 The submission protocol: every public and administrative request that touches
 applications, their idempotency claims, their behaviour-metric capabilities and
 the services they refer to, as interleaved READ COMMITTED transactions.

 A request is a `Tx`: the job it was given and the phase its transaction has
 reached. One `Advance` is one SQL statement (or the final COMMIT). What a
 transaction has written but not committed lives in its phase; `Db` holds
 committed rows only. Row locks and unique-index entries are what the phase says
 the transaction holds; a statement that must wait for another transaction
 leaves the state as it is.
 */
module SubmissionModel {
  import opened Wrappers
  import Text

  type Key = string      // digest of an Idempotency-Key
  type Token = nat       // capability tokens are fresh values
  type TxId = nat

  /** The columns that are copied as they are, by name; None is NULL. */
  type Columns = map<string, Option<string>>

  /** A validated ApplicationCreate. */
  datatype Request = Request(serviceId: int, budget: int, fields: Columns)

  datatype Service = Service(name: string, budgetMin: int, budgetMax: int, active: bool)
  datatype Application = Application(serviceId: Option<int>, product: string, budget: int, fields: Columns)
  datatype Claim = Claim(req: Request, app: Option<nat>)
  datatype Capability = Capability(token: Token, used: bool)

  /** Committed rows. Capabilities and metrics are keyed by their UNIQUE application_id. */
  datatype Db = Db(
    services: map<int, Service>,
    apps: map<nat, Application>,
    claims: map<Key, Claim>,
    caps: map<nat, Capability>,
    metrics: map<nat, string>)

  datatype ServicePatch =
    ServicePatch(name: Option<string>, budgetMin: Option<int>, budgetMax: Option<int>, active: Option<bool>)
  datatype AppPatch = AppPatch(product: Option<string>, budget: Option<int>, fields: Columns)

  datatype Job =
    | Submit(key: Option<Key>, req: Request)
    | SendMetric(app: nat, token: Option<Token>, data: string)
    | DeleteApp(app: nat)
    | PatchApp(app: nat, appPatch: AppPatch)
    | DeleteMetric(app: nat)
    | PatchService(service: int, patch: ServicePatch)
    | DeleteService(service: int)

  datatype Phase =
    | Begin
    | Claimed                                            // claim row inserted (or no key was sent)
    | Checked(svc: Service)                              // service row locked and accepted
    | Inserted(svc: Service, id: nat)                    // application row inserted
    | Minted(svc: Service, id: nat, mint: Token)         // capability inserted, claim pointed at it
    | Beaten                                             // unique violation on the claim, rolled back
    | ClaimLocked(id: nat)                               // replay holds the committed claim row
    | Spent                                              // capability row marked used
    | Reported                                           // metric row inserted
    | Found                                              // unlocked read returned a row
    | AppLocked                                          // application row deleted, not committed
    | Cascading(keys: set<Key>)                          // dependent rows deleted too
    | Edited(edit: AppPatch)                             // unlocked read of the application, and what the patch changes
    | Merged(delta: ServicePatch)                        // unlocked read merged with the patch
    | ServiceLocked(delta: ServicePatch)                 // service row written, not committed
    | Done(outcome: Outcome)

  datatype Outcome =
    | Created(id: nat, token: Token)   // 201 with a capability
    | Replayed(id: nat)                // 201 without one
    | KeyReused                        // 409: same key, different request
    | Retry                            // 409: the claim vanished meanwhile
    | Vanished                         // 409: the claim's application is gone
    | Unavailable                      // 422: no such, inactive or blank service
    | OutOfRange                       // 422: budget outside the service's bounds
    | Accepted                         // metric stored
    | Refused                          // 403: no valid capability
    | Clash                            // 409: metric insert failed
    | Removed
    | Updated
    | NotFound
    | InvalidMerge                     // 422: merged budget_min > budget_max
    | InUse                            // 409: service still referenced
    | Aborted                          // connection lost, deadlock victim, 5xx

  datatype Tx = Tx(job: Job, phase: Phase)
  datatype Obs = Obs(job: Job, outcome: Outcome)

  /** `nextApp` and `nextToken` are never rolled back, like a PostgreSQL sequence. `origin` is
      where `nextApp` started: rows below it predate the protocol. */
  datatype State = State(
    db: Db, txs: map<TxId, Tx>, origin: nat, nextApp: nat, nextToken: Token, history: seq<Obs>)

  datatype Event =
    | Start(t: TxId, job: Job)
    | Advance(t: TxId)
    | Abort(t: TxId)

  // --- Locks ------------------------------------------------------------

  /** Has an uncommitted insert or delete of the claim row for `k`. */
  predicate WritesClaim(x: Tx, k: Key) {
    match x.job
    case Submit(key, _) =>
      key == Some(k) && (x.phase.Claimed? || x.phase.Checked? || x.phase.Inserted? || x.phase.Minted?)
    case DeleteApp(_) => x.phase.Cascading? && k in x.phase.keys
    case _ => false
  }

  /** The above, or a SELECT ... FOR UPDATE lock on it. */
  predicate HoldsClaim(x: Tx, k: Key) {
    WritesClaim(x, k) || (x.job.Submit? && x.job.key == Some(k) && x.phase.ClaimLocked?)
  }

  predicate HoldsService(x: Tx, id: int) {
    match x.job
    case Submit(_, req) => req.serviceId == id && (x.phase.Checked? || x.phase.Inserted? || x.phase.Minted?)
    case PatchService(service, _) => service == id && x.phase.ServiceLocked?
    case DeleteService(service) => service == id && x.phase.ServiceLocked?
    case _ => false
  }

  /** Has deleted application `a`, not yet committed. */
  predicate DeletesApp(x: Tx, a: nat) {
    x.job.DeleteApp? && x.job.app == a && (x.phase.AppLocked? || x.phase.Cascading?)
  }

  /** Holds the foreign-key share lock of an uncommitted metric insert for `a`. */
  predicate SharesApp(x: Tx, a: nat) {
    x.job.SendMetric? && x.job.app == a && x.phase.Reported?
  }

  predicate HoldsCap(x: Tx, a: nat) {
    || (x.job.SendMetric? && x.job.app == a && (x.phase.Spent? || x.phase.Reported?))
    || (x.job.DeleteApp? && x.job.app == a && x.phase.Cascading?)
  }

  /** No transaction other than `t` satisfies `held`. */
  predicate Free(s: State, t: TxId, held: Tx -> bool) {
    forall u :: u in s.txs && u != t ==> !held(s.txs[u])
  }

  // --- Data rules -------------------------------------------------------

  predicate Available(svc: Service) {
    svc.active && Text.Strip(svc.name) != []
  }

  predicate InRange(svc: Service, budget: int) {
    svc.budgetMin <= budget <= svc.budgetMax
  }

  function Or<T>(o: Option<T>, old_: T): T {
    match o case Some(v) => v case None => old_
  }

  function ApplyServicePatch(svc: Service, p: ServicePatch): Service {
    Service(Or(p.name, svc.name), Or(p.budgetMin, svc.budgetMin), Or(p.budgetMax, svc.budgetMax),
            Or(p.active, svc.active))
  }

  function Changed<T(==)>(o: Option<T>, old_: T): Option<T> {
    if o == Some(old_) then None else o
  }

  /** The UPDATE names only the columns whose value differs from the row that was read. */
  function Delta(svc: Service, p: ServicePatch): ServicePatch {
    ServicePatch(Changed(p.name, svc.name), Changed(p.budgetMin, svc.budgetMin),
                 Changed(p.budgetMax, svc.budgetMax), Changed(p.active, svc.active))
  }

  const NO_CHANGE := ServicePatch(None, None, None, None)

  function ApplyAppPatch(app: Application, p: AppPatch): Application {
    app.(product := Or(p.product, app.product), budget := Or(p.budget, app.budget), fields := app.fields + p.fields)
  }

  /** Here too the UPDATE names only what differs from the row that was read. */
  function AppDelta(app: Application, p: AppPatch): AppPatch {
    AppPatch(Changed(p.product, app.product), Changed(p.budget, app.budget),
             map c | c in p.fields && !(c in app.fields && app.fields[c] == p.fields[c]) :: p.fields[c])
  }

  const NO_EDIT := AppPatch(None, None, map[])

  /** The row inserted for `req` against the locked service. */
  function NewApplication(req: Request, svc: Service): Application {
    Application(Some(req.serviceId), svc.name, req.budget, req.fields)
  }

  function ClaimsOn(db: Db, a: nat): set<Key> {
    set k | k in db.claims && db.claims[k].app == Some(a)
  }

  // --- Steps ------------------------------------------------------------

  function Goto(s: State, t: TxId, phase: Phase): State
    requires t in s.txs
  {
    s.(txs := s.txs[t := s.txs[t].(phase := phase)])
  }

  /** The response leaves; `db` is the committed state from now on. */
  function Finish(s: State, t: TxId, db: Db, outcome: Outcome): State
    requires t in s.txs
  {
    s.(db := db, txs := s.txs[t := s.txs[t].(phase := Done(outcome))],
       history := s.history + [Obs(s.txs[t].job, outcome)])
  }

  /** INSERT of the claim: waits for an uncommitted writer of the same key. */
  function InsertClaim(s: State, t: TxId, k: Key): State
    requires t in s.txs
  {
    if !Free(s, t, x => WritesClaim(x, k)) then s
    else Goto(s, t, if k in s.db.claims then Beaten else Claimed)
  }

  /** SELECT ... FOR UPDATE of the service row, then the checks under that lock. */
  function CheckService(s: State, t: TxId, req: Request): State
    requires t in s.txs
  {
    if !Free(s, t, x => HoldsService(x, req.serviceId)) then s
    else if req.serviceId !in s.db.services || !Available(s.db.services[req.serviceId]) then
      Finish(s, t, s.db, Unavailable)
    else if !InRange(s.db.services[req.serviceId], req.budget) then Finish(s, t, s.db, OutOfRange)
    else Goto(s, t, Checked(s.db.services[req.serviceId]))
  }

  function InsertApplication(s: State, t: TxId, svc: Service): State
    requires t in s.txs
  {
    Goto(s, t, Inserted(svc, s.nextApp)).(nextApp := s.nextApp + 1)
  }

  function MintCapability(s: State, t: TxId, svc: Service, id: nat): State
    requires t in s.txs
  {
    Goto(s, t, Minted(svc, id, s.nextToken)).(nextToken := s.nextToken + 1)
  }

  function CommittedCreate(db: Db, key: Option<Key>, req: Request, svc: Service, id: nat, token: Token): Db {
    db.(apps := db.apps[id := NewApplication(req, svc)],
        caps := db.caps[id := Capability(token, false)],
        claims := if key.Some? then db.claims[key.value := Claim(req, Some(id))] else db.claims)
  }

  /** SELECT ... FOR UPDATE of the claim after losing the race for it. */
  function LockClaim(s: State, t: TxId, k: Key, req: Request): State
    requires t in s.txs
  {
    if !Free(s, t, x => HoldsClaim(x, k)) then s
    else if k !in s.db.claims then Finish(s, t, s.db, Retry)
    else if s.db.claims[k].req != req then Finish(s, t, s.db, KeyReused)
    else if s.db.claims[k].app.None? then Finish(s, t, s.db, Vanished)
    else Goto(s, t, ClaimLocked(s.db.claims[k].app.value))
  }

  function Replay(s: State, t: TxId, id: nat): State
    requires t in s.txs
  {
    Finish(s, t, s.db, if id in s.db.apps then Replayed(id) else Vanished)
  }

  function AdvanceSubmit(s: State, t: TxId, key: Option<Key>, req: Request): State
    requires t in s.txs
  {
    match s.txs[t].phase
    case Begin => if key.Some? then InsertClaim(s, t, key.value) else Goto(s, t, Claimed)
    case Claimed => CheckService(s, t, req)
    case Checked(svc) => InsertApplication(s, t, svc)
    case Inserted(svc, id) => MintCapability(s, t, svc, id)
    case Minted(svc, id, token) =>
      Finish(s, t, CommittedCreate(s.db, key, req, svc, id, token), Created(id, token))
    case Beaten => if key.Some? then LockClaim(s, t, key.value, req) else s
    case ClaimLocked(id) => Replay(s, t, id)
    case _ => s
  }

  predicate Spendable(db: Db, a: nat, token: Option<Token>) {
    token.Some? && a in db.caps && db.caps[a] == Capability(token.value, false)
  }

  /** UPDATE ... WHERE application_id, capability_hash, used_at IS NULL: a matching row that is
      locked is waited for and looked at again. */
  function SpendCapability(s: State, t: TxId, a: nat, token: Option<Token>): State
    requires t in s.txs
  {
    if !Spendable(s.db, a, token) then Finish(s, t, s.db, Refused)
    else if !Free(s, t, x => HoldsCap(x, a)) then s
    else Goto(s, t, Spent)
  }

  /** INSERT of the metric: waits for a deleter of the application, then checks both constraints. */
  function InsertMetric(s: State, t: TxId, a: nat): State
    requires t in s.txs
  {
    if !Free(s, t, x => DeletesApp(x, a) || SharesApp(x, a)) then s
    else if a !in s.db.apps || a in s.db.metrics then Finish(s, t, s.db, Clash)
    else Goto(s, t, Reported)
  }

  function CommittedMetric(db: Db, a: nat, data: string): Db {
    db.(caps := map b | b in db.caps :: if b == a then db.caps[b].(used := true) else db.caps[b],
        metrics := db.metrics[a := data])
  }

  function AdvanceMetric(s: State, t: TxId, a: nat, token: Option<Token>, data: string): State
    requires t in s.txs
  {
    match s.txs[t].phase
    case Begin => SpendCapability(s, t, a, token)
    case Spent => InsertMetric(s, t, a)
    case Reported => Finish(s, t, CommittedMetric(s.db, a, data), Accepted)
    case _ => s
  }

  function CommittedDelete(db: Db, a: nat, keys: set<Key>): Db {
    db.(apps := db.apps - {a}, caps := db.caps - {a}, metrics := db.metrics - {a}, claims := db.claims - keys)
  }

  function LockApp(s: State, t: TxId, a: nat): State
    requires t in s.txs
  {
    if !Free(s, t, x => DeletesApp(x, a) || SharesApp(x, a)) then s
    else if a !in s.db.apps then Finish(s, t, s.db, Removed)
    else Goto(s, t, AppLocked)
  }

  /** ON DELETE CASCADE reaches the claim, capability and metric rows once nobody else holds them. */
  function Cascade(s: State, t: TxId, a: nat): State
    requires t in s.txs
  {
    if Free(s, t, x => HoldsCap(x, a) || exists k :: k in ClaimsOn(s.db, a) && HoldsClaim(x, k))
    then Goto(s, t, Cascading(ClaimsOn(s.db, a))) else s
  }

  function AdvanceDelete(s: State, t: TxId, a: nat): State
    requires t in s.txs
  {
    match s.txs[t].phase
    case Begin => if a in s.db.apps then Goto(s, t, Found) else Finish(s, t, s.db, NotFound)
    case Found => LockApp(s, t, a)
    case AppLocked => Cascade(s, t, a)
    case Cascading(keys) => Finish(s, t, CommittedDelete(s.db, a, keys), Removed)
    case _ => s
  }

  function AdvancePatchApp(s: State, t: TxId, a: nat, p: AppPatch): State
    requires t in s.txs
  {
    match s.txs[t].phase
    case Begin =>
      if a !in s.db.apps then Finish(s, t, s.db, NotFound)
      else if AppDelta(s.db.apps[a], p) == NO_EDIT then Finish(s, t, s.db, Updated)
      else Goto(s, t, Edited(AppDelta(s.db.apps[a], p)))
    case Edited(edit) =>
      if !Free(s, t, x => DeletesApp(x, a)) then s
      else if a !in s.db.apps then Finish(s, t, s.db, Aborted)
      else Finish(s, t, s.db.(apps := s.db.apps[a := ApplyAppPatch(s.db.apps[a], edit)]), Updated)
    case _ => s
  }

  function AdvanceDeleteMetric(s: State, t: TxId, a: nat): State
    requires t in s.txs
  {
    match s.txs[t].phase
    case Begin => if a in s.db.metrics then Goto(s, t, Found) else Finish(s, t, s.db, NotFound)
    case Found =>
      if !Free(s, t, (x: Tx) => x.phase.Cascading? && DeletesApp(x, a)) then s
      else Finish(s, t, s.db.(metrics := s.db.metrics - {a}), Removed)
    case _ => s
  }

  function ReadService(s: State, t: TxId, id: int, p: ServicePatch): State
    requires t in s.txs
  {
    if id !in s.db.services then Finish(s, t, s.db, NotFound)
    else
      var svc := s.db.services[id];
      var merged := ApplyServicePatch(svc, p);
      if merged.budgetMin > merged.budgetMax then Finish(s, t, s.db, InvalidMerge)
      else if Delta(svc, p) == NO_CHANGE then Finish(s, t, s.db, Updated)
      else Goto(s, t, Merged(Delta(svc, p)))
  }

  function LockService(s: State, t: TxId, id: int, delta: ServicePatch): State
    requires t in s.txs
  {
    if !Free(s, t, x => HoldsService(x, id)) then s
    else if id !in s.db.services then Finish(s, t, s.db, Aborted)
    else Goto(s, t, ServiceLocked(delta))
  }

  function AdvancePatchService(s: State, t: TxId, id: int, p: ServicePatch): State
    requires t in s.txs
  {
    match s.txs[t].phase
    case Begin => ReadService(s, t, id, p)
    case Merged(delta) => LockService(s, t, id, delta)
    case ServiceLocked(delta) =>
      if id !in s.db.services then s
      else Finish(s, t, s.db.(services := s.db.services[id := ApplyServicePatch(s.db.services[id], delta)]), Updated)
    case _ => s
  }

  predicate Referenced(db: Db, id: int) {
    exists a :: a in db.apps && db.apps[a].serviceId == Some(id)
  }

  function AdvanceDeleteService(s: State, t: TxId, id: int): State
    requires t in s.txs
  {
    match s.txs[t].phase
    case Begin => if id in s.db.services then Goto(s, t, Found) else Finish(s, t, s.db, NotFound)
    case Found =>
      if !Free(s, t, x => HoldsService(x, id)) then s
      else if id in s.db.services && Referenced(s.db, id) then Finish(s, t, s.db, InUse)
      else Goto(s, t, ServiceLocked(NO_CHANGE))
    case ServiceLocked(_) => Finish(s, t, s.db.(services := s.db.services - {id}), Removed)
    case _ => s
  }

  function AdvanceTx(s: State, t: TxId): State
    requires t in s.txs
  {
    match s.txs[t].job
    case Submit(key, req) => AdvanceSubmit(s, t, key, req)
    case SendMetric(a, token, data) => AdvanceMetric(s, t, a, token, data)
    case DeleteApp(a) => AdvanceDelete(s, t, a)
    case PatchApp(a, p) => AdvancePatchApp(s, t, a, p)
    case DeleteMetric(a) => AdvanceDeleteMetric(s, t, a)
    case PatchService(id, p) => AdvancePatchService(s, t, id, p)
    case DeleteService(id) => AdvanceDeleteService(s, t, id)
  }

  /** One event; an event that cannot happen changes nothing. */
  function Step(s: State, e: Event): State {
    match e
    case Start(t, job) => if t in s.txs then s else s.(txs := s.txs[t := Tx(job, Begin)])
    case Advance(t) => if t in s.txs then AdvanceTx(s, t) else s
    case Abort(t) => if t in s.txs && !s.txs[t].phase.Done? then Finish(s, t, s.db, Aborted) else s
  }

  function Run(s: State, events: seq<Event>): State {
    if events == [] then s else Step(Run(s, events[..|events| - 1]), events[|events| - 1])
  }

  /** Any services, any historical applications and metrics; no claims or capabilities yet. */
  ghost predicate Init(s: State) {
    && s.txs == map[] && s.history == [] && s.origin == s.nextApp
    && s.db.claims == map[] && s.db.caps == map[]
    && (forall a :: a in s.db.apps ==> a < s.nextApp)
    && s.db.metrics.Keys <= s.db.apps.Keys
    && (forall a :: a in s.db.apps && s.db.apps[a].serviceId.Some? ==> s.db.apps[a].serviceId.value in s.db.services)
  }
}
