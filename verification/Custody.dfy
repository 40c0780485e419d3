/** Retained descriptors and the checks made through them: every pinned name
    still denotes its pinned inode, unchanged, in an unchanged directory. */
module Custody {
  import opened Basics
  import opened PublicationRecords
  import opened Volumes

  datatype Name = Published | Sibling(inode: nat)
  datatype Pin = Pin(descriptor: nat, place: Place, name: Name, stat: Identity)
  datatype Seen = Seen(active: nat, journal: nat, factory: nat) {
    function At(place: Place): nat {
      match place
      case Active => active
      case Journal => journal
      case Factory => factory
    }

    function With(place: Place, version: nat): Seen {
      match place
      case Active => this.(active := version)
      case Journal => this.(journal := version)
      case Factory => this.(factory := version)
    }
  }

  /** A prepared file that a rename is about to publish, or may have. */
  datatype Candidate = Candidate(pin: Pin, content: Content, restoring: bool)

  /** The pinned published file of a directory and the bytes it must hold. */
  datatype Held = Held(pin: Pin, expected: Content)

  function Lookup(dir: Dir, name: Name): Option<File>
    requires dir.log != []
  {
    match name
    case Published => dir.Entry()
    case Sibling(n) => if n in dir.siblings then Some(dir.siblings[n]) else None
  }

  /** The linked inode behind a descriptor; None when it has no name left. */
  function Inode(dir: Dir, inode: nat): Option<File>
    requires dir.log != []
  {
    if dir.Entry().Some? && dir.Entry().value.inode == inode then dir.Entry()
    else if inode in dir.siblings then Some(dir.siblings[inode])
    else None
  }

  ghost predicate Located(disk: Disk, pin: Pin)
    requires disk.Valid()
  {
    && Lookup(disk.At(pin.place), pin.name).Some?
    && Stat(Lookup(disk.At(pin.place), pin.name).value) == pin.stat
  }

  ghost predicate Current(disk: Disk, seen: Seen) {
    && seen.active == disk.active.version
    && seen.journal == disk.journal.version
    && seen.factory == disk.factory.version
  }

  ghost predicate Agree(disk: Disk, pins: map<nat, Pin>, seen: Seen)
    requires disk.Valid()
  {
    Current(disk, seen) && forall d | d in pins :: Located(disk, pins[d])
  }

  ghost predicate Holds(disk: Disk, held: Held)
    requires disk.Valid()
  {
    var file := Inode(disk.At(held.pin.place), held.pin.stat.inode);
    file.Some? && file.value.content == held.expected
  }

  /** What one complete check establishes. `watch` is the closed pending entry. */
  ghost predicate Intact(disk: Disk, pins: map<nat, Pin>, seen: Seen, active: Held, record: Held, watch: Option<Pin>)
    requires disk.Valid()
  {
    && Agree(disk, pins, seen)
    && (watch.Some? ==> Located(disk, watch.value))
    && Holds(disk, active)
    && Holds(disk, record)
  }

  method CheckPin(v: Volume, pin: Pin) returns (s: Status)
    requires v.Valid()
    modifies v`faults, v`halted
    ensures v.faults >= old(v.faults)
    ensures s == Ok ==> Located(v.disk, pin)
    ensures s != Ok ==> v.faults > old(v.faults) || !Located(v.disk, pin)
  {
    var failed := v.Fails();
    if failed { return Operational; }
    var current := Inode(v.disk.At(pin.place), pin.stat.inode);
    if current.None? || Stat(current.value) != pin.stat { return Conflict; }
    failed := v.Fails();
    if failed { return Operational; }
    var location := Lookup(v.disk.At(pin.place), pin.name);
    if location.None? || Stat(location.value) != pin.stat { return Conflict; }
    s := Ok;
  }

  method CheckPins(v: Volume, pins: map<nat, Pin>, seen: Seen) returns (s: Status)
    requires v.Valid()
    modifies v`faults, v`halted
    ensures v.faults >= old(v.faults)
    ensures s == Ok ==> Agree(v.disk, pins, seen)
    ensures s != Ok ==> v.faults > old(v.faults) || !Agree(v.disk, pins, seen)
  {
    if seen.active != v.disk.active.version || seen.journal != v.disk.journal.version
       || seen.factory != v.disk.factory.version {
      return Conflict;
    }
    var left := pins.Keys;
    while left != {}
      invariant v.faults >= old(v.faults)
      invariant left <= pins.Keys
      invariant forall d | d in pins.Keys - left :: Located(v.disk, pins[d])
      decreases left
    {
      var d :| d in left;
      s := CheckPin(v, pins[d]);
      if s != Ok { return; }
      left := left - {d};
    }
    s := Ok;
  }

  method CheckBytes(v: Volume, held: Held) returns (s: Status)
    requires v.Valid()
    modifies v`faults, v`halted
    ensures v.faults >= old(v.faults)
    ensures s == Ok ==> Holds(v.disk, held)
    ensures s != Ok ==> v.faults > old(v.faults) || !Holds(v.disk, held)
  {
    var failed := v.Fails();
    if failed { return Operational; }
    var file := Inode(v.disk.At(held.pin.place), held.pin.stat.inode);
    s := if file.Some? && file.value.content == held.expected then Ok else Conflict;
  }

  /** One whole check, against the given view of the retained pins. */
  method CheckImages(v: Volume, pins: map<nat, Pin>, seen: Seen, active: Held, record: Held, watch: Option<Pin>)
    returns (s: Status)
    requires v.Valid()
    modifies v`faults, v`halted
    ensures v.faults >= old(v.faults)
    ensures s == Ok ==> Intact(v.disk, pins, seen, active, record, watch)
    ensures s != Ok ==> v.faults > old(v.faults) || !Intact(v.disk, pins, seen, active, record, watch)
  {
    var lost := v.Fails();
    if lost { return Conflict; }
    s := CheckPins(v, pins, seen);
    if s != Ok { return; }
    if watch.Some? {
      s := CheckPin(v, watch.value);
      if s != Ok { return; }
    }
    s := CheckBytes(v, active);
    if s != Ok { return; }
    s := CheckBytes(v, record);
  }

  /** After an attempted rename the published name denotes the staged inode, up
      to its change time, or still denotes the prior one. */
  ghost predicate Renamed(dir: Dir, candidate: Pin)
    requires dir.log != []
  {
    dir.Entry().Some? && Stat(dir.Entry().value) == candidate.stat.(ctime := dir.Entry().value.ctime)
  }

  ghost predicate Unrenamed(dir: Dir, candidate: Pin, prior: Pin)
    requires dir.log != []
  {
    && dir.Entry().Some? && Stat(dir.Entry().value) == prior.stat
    && Inode(dir, candidate.stat.inode).Some?
    && var staged := Inode(dir, candidate.stat.inode).value;
       Stat(staged) == candidate.stat.(ctime := staged.ctime)
  }

  /** Reads the outcome of an attempted rename off the directory. */
  method Locate(v: Volume, candidate: Pin, prior: Pin) returns (published: bool, stat: Identity, s: Status)
    requires v.Valid() && candidate.stat.inode != prior.stat.inode
    modifies v`faults, v`halted
    ensures v.faults >= old(v.faults)
    ensures s == Ok && published ==>
      && Renamed(v.disk.At(candidate.place), candidate)
      && stat == Stat(v.disk.At(candidate.place).Entry().value)
    ensures s == Ok && !published ==> Unrenamed(v.disk.At(candidate.place), candidate, prior)
    ensures s == Ok || v.faults > old(v.faults)
         || !(Renamed(v.disk.At(candidate.place), candidate) || Unrenamed(v.disk.At(candidate.place), candidate, prior))
  {
    published, stat := false, candidate.stat;
    var failed := v.Fails();
    if failed { return false, stat, Conflict; }
    var dir := v.disk.At(candidate.place);
    var current, location := Inode(dir, candidate.stat.inode), dir.Entry();
    failed := v.Fails();
    if failed { return false, stat, Operational; }
    if current.None? || location.None?
       || Stat(current.value) != candidate.stat.(ctime := current.value.ctime) {
      return false, stat, Conflict;
    }
    if Stat(current.value) == Stat(location.value) { return true, Stat(current.value), Ok; }
    s := if prior.stat == Stat(location.value) then Ok else Conflict;
  }
}
