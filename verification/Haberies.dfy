/** The registry of identifiers by name, over a store that outlives it. */
module Haberies {
  import opened Wrappers
  import opened JsonValues
  import opened Primitives
  import opened Stores
  import opened Habs
  import opened HabRecords

  // ---------- one call ----------

  datatype Registry = Registry(habs: map<string, Habitat>, tables: Tables)

  const NEW_REGISTRY := Registry(map[], EMPTY_TABLES)

  /** Calls by name; `Restart` is a new registry over the same store. */
  datatype Call =
    | InceptHab(name: string, inception: InceptionConfig, commits: bool)
    | ResumeHab(name: string, salt: string)
    | RotateHab(name: string, rotation: RotationConfig, commits: bool)
    | InteractHab(name: string, anchors: seq<Json>, commits: bool)
    | Restart

  function Founded(t: Tables, name: string, h: Habitat, e: SignedEvent): Tables {
    EventStored(t, e.said, e.raw, h.prefix, 0, Some(e.signatures))
    .(habs := t.habs[name := Print(HabRecord(StateOf(h)))])
  }

  /** What `resume` rebuilds from the store, before it looks at the registry. */
  function Stored(c: Suite, kr: Keyring, t: Tables, name: string, salt: string): Result<Habitat> {
    if name !in t.habs then Err(NotFound)
    else
      var s :- ReadRecord(c, t.habs[name]);
      Resumed(kr, s, salt)
  }

  /** An event of the identifier registered under this name; a failed call may have changed it too. */
  function Recorded(g: Registry, name: string, h2: Habitat, r: Result<SignedEvent>): Registry {
    Registry(g.habs[name := h2],
             if r.Ok?
             then EventStored(g.tables, r.value.said, r.value.raw, h2.prefix, h2.sn, Some(r.value.signatures))
             else g.tables)
  }

  function Called(c: Suite, kr: Keyring, g: Registry, call: Call): Registry {
    match call
    case InceptHab(name, cfg, commits) =>
      if name in g.habs then g
      else
        (match Incepted(c, kr, name, cfg, commits)
         case Ok((h, e)) => Registry(g.habs[name := h], Founded(g.tables, name, h, e))
         case Err(_) => g)
    case ResumeHab(name, salt) =>
      (match Stored(c, kr, g.tables, name, salt)
       case Ok(h) => if name in g.habs then g else g.(habs := g.habs[name := h])
       case Err(_) => g)
    case RotateHab(name, cfg, commits) =>
      if name !in g.habs then g
      else
        var (h2, r) := Rotated(c, kr, g.habs[name], cfg, commits);
        Recorded(g, name, h2, r)
    case InteractHab(name, anchors, commits) =>
      if name !in g.habs then g
      else
        var (h2, r) := Interacted(c, kr, g.habs[name], anchors, commits);
        Recorded(g, name, h2, r)
    case Restart => g.(habs := map[])
  }

  // ---------- the object ----------

  class Habery {
    const store: LmdbStore
    var habs: map<string, Habitat>

    function View(): Registry
      reads this, store
    {
      Registry(habs, store.Snapshot())
    }

    constructor (store: LmdbStore)
      ensures this.store == store && habs == map[]
    {
      this.store := store;
      habs := map[];
    }

    method Incept(c: Suite, kr: Keyring, name: string, cfg: InceptionConfig, commits: bool)
      returns (r: Result<string>)
      modifies this, store
      ensures View() == Called(c, kr, old(View()), InceptHab(name, cfg, commits))
      ensures r ==
        if name in old(habs) then Err(AlreadyExists)
        else
          match Incepted(c, kr, name, cfg, commits)
          case Ok((_, e)) => Ok(e.composed)
          case Err(error) => Err(error)
    {
      hide Incepted, EventStored, HabRecord, Print;
      if name in habs {
        return Err(AlreadyExists);
      }
      var made := Hab.Incept(c, kr, name, cfg, store, commits);
      if made.Err? {
        return Err(made.error);
      }
      habs := habs[name := made.value.0.View()];
      r := Ok(made.value.1.composed);
    }

    /** The identifier now registered under the name: the one rebuilt, unless there was one already. */
    method Resume(c: Suite, kr: Keyring, name: string, salt: string) returns (r: Result<Habitat>)
      modifies this
      ensures View() == Called(c, kr, old(View()), ResumeHab(name, salt))
      ensures var back := Stored(c, kr, old(store.Snapshot()), name, salt);
        if back.Err? then r == Err(back.error)
        else r == Ok(if name in old(habs) then old(habs)[name] else back.value)
    {
      hide Resumed, ReadRecord;
      if name !in store.habs {
        return Err(NotFound);
      }
      var s := ReadRecord(c, store.habs[name]);
      if s.Err? {
        return Err(s.error);
      }
      var hab := Hab.Resume(kr, s.value, salt);
      if hab.Err? {
        return Err(hab.error);
      }
      if name !in habs {
        habs := habs[name := hab.value.View()];
      }
      r := Ok(habs[name]);
    }

    method Rotate(c: Suite, kr: Keyring, name: string, cfg: RotationConfig, commits: bool)
      returns (r: Result<string>)
      modifies this, store
      ensures View() == Called(c, kr, old(View()), RotateHab(name, cfg, commits))
      ensures r ==
        if name !in old(habs) then Err(NotFound)
        else
          match Rotated(c, kr, old(habs)[name], cfg, commits).1
          case Ok(e) => Ok(e.composed)
          case Err(error) => Err(error)
    {
      hide Rotated, EventStored;
      if name !in habs {
        return Err(NotFound);
      }
      var hab := new Hab(habs[name]);
      var e := hab.Rotate(c, kr, cfg, store, commits);
      habs := habs[name := hab.View()];
      r := if e.Err? then Err(e.error) else Ok(e.value.composed);
    }

    method Interact(c: Suite, kr: Keyring, name: string, anchors: seq<Json>, commits: bool)
      returns (r: Result<string>)
      modifies this, store
      ensures View() == Called(c, kr, old(View()), InteractHab(name, anchors, commits))
      ensures r ==
        if name !in old(habs) then Err(NotFound)
        else
          match Interacted(c, kr, old(habs)[name], anchors, commits).1
          case Ok(e) => Ok(e.composed)
          case Err(error) => Err(error)
    {
      hide Interacted, EventStored;
      if name !in habs {
        return Err(NotFound);
      }
      var hab := new Hab(habs[name]);
      var e := hab.Interact(c, kr, anchors, store, commits);
      habs := habs[name := hab.View()];
      r := if e.Err? then Err(e.error) else Ok(e.value.composed);
    }
  }
}
