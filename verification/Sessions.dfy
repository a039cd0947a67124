/** What the session manager decides: timeouts, the one transition a response
    asks for, and what its handle looks like afterwards. */
module Sessions {
  import opened Stores
  import Labels

  const SECOND := 1_000_000_000

  /** Durations are in nanoseconds; `hash` stands for the value digest. */
  datatype Config = Config(inactive: nat, final: nat, rotateOnLogin: bool, rotateInterval: nat, hash: string -> string)

  function Seconds(d: nat): nat { d / SECOND }

  function NewSession(cfg: Config, now: int): Session {
    Session(now, now, Seconds(cfg.inactive), Seconds(cfg.final), 0, now, "")
  }

  predicate Expired(x: Session, now: int) {
    now - x.lastAccess >= x.inactive || now >= x.creation + x.final
  }

  /** Seconds the store may still keep the session. */
  function Ttl(x: Session, now: int): int {
    var remaining := x.creation + x.final - now;
    if remaining < x.inactive then remaining else x.inactive
  }

  /** An unexpired session gets a positive lifetime that ends by both limits. */
  lemma TtlWithinLimits(x: Session, now: int)
    requires x.inactive > 0 && !Expired(x, now)
    ensures Ttl(x, now) > 0
    ensures now + Ttl(x, now) <= x.creation + x.final
    ensures !Expired(x.(lastAccess := now), now + Ttl(x, now) - 1)
    ensures Expired(x.(lastAccess := now), now + Ttl(x, now))
  {
  }

  predicate RotationDue(cfg: Config, x: Session, now: int) {
    cfg.rotateInterval > 0 && now - x.lastRotation >= Seconds(cfg.rotateInterval)
  }

  /** The rotation clock `Resolve` hands to the store: a session without one starts now. */
  function LegacyRotation(cfg: Config, x: Session, now: int): int {
    if cfg.rotateInterval > 0 && x.lastRotation == 0 then now else x.lastRotation
  }

  /** An in-request handle to a session. */
  datatype Handle = Handle(
    key: Id, sid: Id, owner: int, labels: seq<string>,
    cookies: map<string, string>, shas: map<string, string>,
    newKey: Id, rewrite: bool, rotateDue: bool)

  function BeginHandle(sid: Id, key: Id): Handle {
    Handle(key, sid, 0, [], map[], map[], key, true, false)
  }

  function ResolvedHandle(cfg: Config, key: Id, sid: Id, x: Session, now: int): Handle {
    Handle(key, sid, x.owner, Labels.Fields(x.labels), map[], map[], "", false,
           x.lastRotation != 0 && RotationDue(cfg, x, now))
  }

  datatype CookieWrite = CookieWrite(name: string, value: string, delete: bool)

  /** What one backend response asks of its session. */
  datatype Ask = Ask(owner: Option<int>, labels: Option<seq<string>>, force: bool, periodic: bool, cookies: seq<CookieWrite>)

  function Mutation(cfg: Config, c: CookieWrite): CookieMutation {
    CookieMutation(c.name, c.value, if c.delete then "" else cfg.hash(c.value), c.delete)
  }

  function Mutations(cfg: Config, cs: seq<CookieWrite>): seq<CookieMutation> {
    seq(|cs|, i requires 0 <= i < |cs| => Mutation(cfg, cs[i]))
  }

  /** The transition a response asks for, given the session row as read. */
  function Decide(cfg: Config, h: Handle, x: Session, now: int, ask: Ask, mint: Id): Controls {
    var ownerChanged := ask.owner.Some? && ask.owner.value != x.owner;
    var normalized := if ask.labels.Some? then Labels.Normalize(ask.labels.value) else "";
    var labelsChanged := ask.labels.Some? && normalized != x.labels;
    var rotate := !h.rewrite &&
                  (ask.force || (ask.periodic && RotationDue(cfg, x, now)) || labelsChanged ||
                   (ownerChanged && cfg.rotateOnLogin));
    Controls(ownerChanged, if ask.owner.Some? then ask.owner.value else 0,
             labelsChanged, normalized,
             if ownerChanged || labelsChanged || ask.cookies != [] then now else 0,
             if rotate then now else 0,
             h.key, if rotate then mint else h.key, rotate, Mutations(cfg, ask.cookies))
  }

  predicate NothingToDo(c: Controls) {
    !c.setOwner && !c.setLabels && !c.rotate && c.cookies == []
  }

  function RotateOnly(h: Handle, mint: Id, now: int): Controls {
    Controls(false, 0, false, "", 0, now, h.key, mint, true, [])
  }

  /** The handle once the response's owner and labels are known to be in the store. */
  function Granted(h: Handle, ask: Ask): Handle {
    h.(owner := if ask.owner.Some? then ask.owner.value else h.owner,
       labels := if ask.labels.Some? then Labels.Fields(Labels.Normalize(ask.labels.value)) else h.labels)
  }

  function Rekeyed(h: Handle, c: Controls): Handle {
    if c.rotate then h.(key := c.newKey, newKey := c.newKey, rewrite := true) else h
  }

  /** The handle after its transition committed. */
  function Committed(h: Handle, ask: Ask, c: Controls): Handle {
    Rekeyed(Granted(h, ask).(cookies := Batch(h.cookies, c.cookies, false), shas := Batch(h.shas, c.cookies, true)), c)
  }
}
