/** The two-tier cache: a bounded memory tier over a keyed table with a time to live per row. */
module TieredCache {
  import opened Options
  import opened L1Cache

  // ---- keys ----

  /** What a cached value is asked for by. `args` is the JSON text of the argument dictionary. */
  datatype Query = Query(project: string, tool: string, args: string)

  datatype Config = Config(
    l1Enabled: bool, l1MaxEntries: int, l1MaxBytes: nat, l1Ttl: int,
    l2Enabled: bool, l2DefaultTtl: int, maxKeyLength: int, digest: string -> string)

  function ProjectPrefix(project: string): string {
    project + ":"
  }

  function ToolPrefix(project: string, tool: string): string {
    project + ":" + tool + ":"
  }

  function MakeKey(cfg: Config, q: Query): string {
    var raw := ToolPrefix(q.project, q.tool) + q.args;
    if |raw| > cfg.maxKeyLength then ToolPrefix(q.project, q.tool) + cfg.digest(raw) else raw
  }

  /** Names without a colon, and arguments that are the text of a JSON object. */
  predicate WellNamed(q: Query) {
    ':' !in q.project && ':' !in q.tool && q.args != "" && q.args[0] == '{'
  }

  /** No collisions, and hexadecimal digits never look like a JSON object. */
  ghost predicate GoodDigest(digest: string -> string) {
    && (forall x, y :: digest(x) == digest(y) ==> x == y)
    && (forall x :: digest(x) != "" && digest(x)[0] != '{')
  }

  lemma {:induction false} SplitAtColon(a: string, x: string, b: string, y: string)
    requires ':' !in a && ':' !in b && a + ":" + x == b + ":" + y
    ensures a == b && x == y
  {
    var left, right := a + ":" + x, b + ":" + y;
    assert left[|a|] == ':' && right[|b|] == ':';
    assert forall i :: 0 <= i < |a| ==> left[i] == a[i] && a[i] != ':';
    assert forall i :: 0 <= i < |b| ==> right[i] == b[i] && b[i] != ':';
    assert a == left[..|a|] && b == right[..|b|];
    assert x == left[|a| + 1..] && y == right[|b| + 1..];
  }

  lemma {:induction false} SplitKey(p: string, t: string, x: string, q: string, u: string, y: string)
    requires ':' !in p && ':' !in t && ':' !in q && ':' !in u
    requires ToolPrefix(p, t) + x == ToolPrefix(q, u) + y
    ensures p == q && t == u && x == y
  {
    assert ToolPrefix(p, t) + x == p + ":" + (t + ":" + x);
    assert ToolPrefix(q, u) + y == q + ":" + (u + ":" + y);
    SplitAtColon(p, t + ":" + x, q, u + ":" + y);
    SplitAtColon(t, x, u, y);
  }

  /** Without colons in the names, different queries have different keys. */
  lemma {:induction false} KeysDistinct(cfg: Config, q: Query, r: Query)
    requires GoodDigest(cfg.digest) && WellNamed(q) && WellNamed(r)
    requires MakeKey(cfg, q) == MakeKey(cfg, r)
    ensures q == r
  {
    var rawQ, rawR := ToolPrefix(q.project, q.tool) + q.args, ToolPrefix(r.project, r.tool) + r.args;
    var tailQ := if |rawQ| > cfg.maxKeyLength then cfg.digest(rawQ) else q.args;
    var tailR := if |rawR| > cfg.maxKeyLength then cfg.digest(rawR) else r.args;
    SplitKey(q.project, q.tool, tailQ, r.project, r.tool, tailR);
    assert tailQ[0] == '{' <==> |rawQ| <= cfg.maxKeyLength;
    if |rawQ| > cfg.maxKeyLength {
      SplitKey(q.project, q.tool, q.args, r.project, r.tool, r.args);
    }
  }

  /** A colon in a name lets two queries share a key. */
  lemma {:induction false} ColonsCollide(cfg: Config, args: string)
    ensures Query("a:b", "c", args) != Query("a", "b:c", args)
    ensures MakeKey(cfg, Query("a:b", "c", args)) == MakeKey(cfg, Query("a", "b:c", args))
  {
    assert ToolPrefix("a:b", "c") == "a:b:c:" && ToolPrefix("a", "b:c") == "a:b:c:";
  }

  /** A key starts with a project's prefix exactly when it belongs to the project, and so with a tool's. */
  lemma {:induction false} PrefixesNameOwners(cfg: Config, q: Query, project: string, tool: string)
    requires WellNamed(q) && ':' !in project && ':' !in tool
    ensures ProjectPrefix(project) <= MakeKey(cfg, q) <==> q.project == project
    ensures ToolPrefix(project, tool) <= MakeKey(cfg, q) <==> q.project == project && q.tool == tool
  {
    var key, own := MakeKey(cfg, q), ToolPrefix(q.project, q.tool);
    assert key == own + key[|own|..];
    assert own == q.project + ":" + (q.tool + ":");
    assert key == q.project + ":" + (q.tool + ":" + key[|own|..]);
    if ProjectPrefix(project) <= key {
      SplitAtColon(project, key[|project| + 1..], q.project, q.tool + ":" + key[|own|..]);
    }
    if ToolPrefix(project, tool) <= key {
      SplitKey(project, tool, key[|ToolPrefix(project, tool)|..], q.project, q.tool, key[|own|..]);
    }
  }

  // ---- the disk tier ----

  datatype Row<V> = Row(value: Option<V>, created: int, ttl: int, project: string, tool: string)

  type Rows<V> = map<string, Row<V>>

  function Fold(c: char): char {
    if 'A' <= c <= 'Z' then (c as int + 32) as char else c
  }

  /** SQL's LIKE: a percent sign stands for any text, an underscore for one character, ASCII letters match in
      either case. */
  predicate Like(pattern: string, s: string)
    decreases |pattern| + |s|
  {
    if pattern == "" then s == ""
    else if pattern[0] == '%' then Like(pattern[1..], s) || (s != "" && Like(pattern, s[1..]))
    else s != "" && (pattern[0] == '_' || Fold(pattern[0]) == Fold(s[0])) && Like(pattern[1..], s[1..])
  }

  lemma {:induction false} AnythingLikePercent(s: string)
    ensures Like("%", s)
  {
    if s != "" {
      AnythingLikePercent(s[1..]);
    } else {
      assert "%"[1..] == "";
    }
  }

  /** Deleting by pattern deletes at least every key with the prefix, even when the prefix holds wildcards. */
  lemma {:induction false} LikeCoversPrefix(prefix: string, s: string)
    requires prefix <= s
    ensures Like(prefix + "%", s)
  {
    var pattern := prefix + "%";
    if prefix == "" {
      AnythingLikePercent(s);
      assert pattern == "%";
    } else {
      LikeCoversPrefix(prefix[1..], s[1..]);
      assert pattern[1..] == prefix[1..] + "%" && pattern[0] == s[0];
      if pattern[0] == '%' {
        LikeAbsorbs(pattern, s);
      }
    }
  }

  lemma {:induction false} LikeAbsorbs(pattern: string, s: string)
    requires pattern != "" && pattern[0] == '%' && s != "" && Like(pattern[1..], s[1..])
    ensures Like(pattern, s)
  {
    assert Like(pattern, s[1..]);
  }

  function WithoutLike<V>(rows: Rows<V>, pattern: string): Rows<V> {
    map key | key in rows && !Like(pattern, key) :: rows[key]
  }

  function WithoutProject<V>(rows: Rows<V>, project: string): Rows<V> {
    map key | key in rows && rows[key].project != project :: rows[key]
  }

  function WithoutExpired<V>(rows: Rows<V>, now: int): Rows<V> {
    map key | key in rows && !(rows[key].created + rows[key].ttl < now) :: rows[key]
  }

  // ---- both tiers ----

  datatype Tiers<V> = Tiers(l1: Option<L1<Option<V>>>, l2: Option<Rows<V>>, l1Hits: nat, l2Hits: nat)

  datatype Tier = Memory | Disk | Miss

  datatype Answer<V> = Answer(value: Option<V>, tier: Tier)

  function FreshL1<V>(cfg: Config): Option<L1<Option<V>>> {
    if cfg.l1Enabled then Some(Fresh(cfg.l1MaxEntries, cfg.l1MaxBytes, cfg.l1Ttl)) else None
  }

  function FromMemory<V>(t: Tiers<V>, key: string, now: int): Option<V> {
    if t.l1.None? then None
    else match Lookup(t.l1.value, key, now)
         case None => None
         case Some(value) => value
  }

  function FromDisk<V>(t: Tiers<V>, key: string, now: int): Option<V> {
    if t.l2.None? || key !in t.l2.value || now - t.l2.value[key].created > t.l2.value[key].ttl then None
    else t.l2.value[key].value
  }

  /** What a get answers whose two lookups find the tiers like this. */
  function Answered<V>(t: Tiers<V>, key: string, memoryAt: int, diskAt: int): Answer<V> {
    if FromMemory(t, key, memoryAt).Some? then Answer(FromMemory(t, key, memoryAt), Memory)
    else if FromDisk(t, key, diskAt).Some? then Answer(FromDisk(t, key, diskAt), Disk)
    else Answer(None, Miss)
  }

  // ---- the sections: each holds the lock of one tier, none holds both ----

  function AfterMemoryLook<V>(t: Tiers<V>, key: string, now: int): Tiers<V> {
    if t.l1.None? then t
    else t.(l1 := Some(L1Cache.AfterGet(t.l1.value, key, now)),
            l1Hits := if FromMemory(t, key, now).Some? then t.l1Hits + 1 else t.l1Hits)
  }

  function AfterDiskLook<V>(t: Tiers<V>, key: string, now: int): Tiers<V> {
    if FromDisk(t, key, now).Some? then t.(l2Hits := t.l2Hits + 1)
    else if t.l2.Some? && key in t.l2.value && now - t.l2.value[key].created > t.l2.value[key].ttl
    then t.(l2 := Some(t.l2.value - {key}))
    else t
  }

  function Promoted<V>(t: Tiers<V>, key: string, value: V, now: int): Tiers<V> {
    if t.l1.None? then t else t.(l1 := Some(L1Cache.AfterPut(t.l1.value, key, Some(value), 0, now)))
  }

  function PutInMemory<V>(t: Tiers<V>, key: string, value: Option<V>, size: nat, now: int): Tiers<V> {
    if t.l1.None? then t else t.(l1 := Some(L1Cache.AfterPut(t.l1.value, key, value, size, now)))
  }

  function EffectiveTtl(cfg: Config, ttl: int): int {
    if ttl == 0 then cfg.l2DefaultTtl else ttl
  }

  function PutOnDisk<V>(cfg: Config, t: Tiers<V>, q: Query, value: Option<V>, ttl: int, now: int): Tiers<V> {
    if t.l2.None? then t
    else
      var row := Row(value, now, EffectiveTtl(cfg, ttl), q.project, q.tool);
      t.(l2 := Some(t.l2.value[MakeKey(cfg, q) := row]))
  }

  function InvalidatedInMemory<V>(t: Tiers<V>, project: string, tool: string, key: string): Tiers<V> {
    if t.l1.None? then t
    else if key != "" then t.(l1 := Some(Invalidated(t.l1.value, key)))
    else if tool != "" then t.(l1 := Some(WithoutPrefix(t.l1.value, ToolPrefix(project, tool))))
    else t.(l1 := Some(WithoutPrefix(t.l1.value, ProjectPrefix(project))))
  }

  function InvalidatedOnDisk<V>(t: Tiers<V>, project: string, tool: string, key: string): Tiers<V> {
    if t.l2.None? then t
    else if key != "" then t.(l2 := Some(t.l2.value - {key}))
    else if tool != "" then t.(l2 := Some(WithoutLike(t.l2.value, ToolPrefix(project, tool) + "%")))
    else t.(l2 := Some(WithoutProject(t.l2.value, project)))
  }

  /** The clock readings of one get. */
  datatype Readings = Readings(memory: int, disk: int, promotion: int)

  /** All sections of a get that no other call interrupts. */
  function TiersAfterGet<V>(t: Tiers<V>, key: string, at: Readings): Tiers<V> {
    var looked := AfterMemoryLook(t, key, at.memory);
    if FromMemory(t, key, at.memory).Some? then looked
    else
      match FromDisk(looked, key, at.disk)
      case None => AfterDiskLook(looked, key, at.disk)
      case Some(value) => Promoted(AfterDiskLook(looked, key, at.disk), key, value, at.promotion)
  }

  // ---- the classes ----

  class L2DiskCache<V> {
    var rows: Rows<V>

    constructor ()
      ensures rows == map[]
    {
      rows := map[];
    }

    method Get(key: string, now: int) returns (value: Option<V>)
      modifies this
      ensures value == FromDisk(Tiers(None, Some(old(rows)), 0, 0), key, now)
      ensures Some(rows) == AfterDiskLook(Tiers(None, Some(old(rows)), 0, 0), key, now).l2
    {
      if key !in rows {
        return None;
      }
      if now - rows[key].created > rows[key].ttl {
        rows := rows - {key};
        return None;
      }
      value := rows[key].value;
    }

    method Put(key: string, value: Option<V>, ttl: int, project: string, tool: string, now: int)
      modifies this
      ensures rows == old(rows)[key := Row(value, now, ttl, project, tool)]
    {
      rows := rows[key := Row(value, now, ttl, project, tool)];
    }

    method Invalidate(key: string)
      modifies this
      ensures rows == old(rows) - {key}
    {
      rows := rows - {key};
    }

    method InvalidatePrefix(prefix: string)
      modifies this
      ensures rows == WithoutLike(old(rows), prefix + "%")
    {
      rows := map key | key in rows && !Like(prefix + "%", key) :: rows[key];
    }

    method InvalidateProject(project: string)
      modifies this
      ensures rows == WithoutProject(old(rows), project)
    {
      rows := map key | key in rows && rows[key].project != project :: rows[key];
    }

    method CleanupExpired(now: int)
      modifies this
      ensures rows == WithoutExpired(old(rows), now)
    {
      rows := map key | key in rows && rows[key].created + rows[key].ttl >= now :: rows[key];
    }
  }

  class MultiTierCache<V> {
    const cfg: Config
    const l1: L1MemoryCache?<Option<V>>
    const l2: L2DiskCache?<V>
    var l1Hits: nat
    var l2Hits: nat

    ghost function Snapshot(): Tiers<V>
      reads this, l1, l2
    {
      Tiers(if l1 == null then None else Some(l1.Snapshot()), if l2 == null then None else Some(l2.rows),
            l1Hits, l2Hits)
    }

    ghost predicate Valid()
      reads this, l1
    {
      l1 != null ==> l1.Valid()
    }

    constructor (cfg: Config)
      ensures Valid() && (l1 != null ==> fresh(l1)) && (l2 != null ==> fresh(l2)) && this.cfg == cfg
      ensures Snapshot() == Tiers(FreshL1(cfg), if cfg.l2Enabled then Some(map[]) else None, 0, 0)
    {
      this.cfg := cfg;
      if cfg.l1Enabled {
        var memory := new L1MemoryCache<Option<V>>(cfg.l1MaxEntries, cfg.l1MaxBytes, cfg.l1Ttl);
        l1 := memory;
      } else {
        l1 := null;
      }
      if cfg.l2Enabled {
        var disk := new L2DiskCache<V>();
        l2 := disk;
      } else {
        l2 := null;
      }
      l1Hits, l2Hits := 0, 0;
    }

    method LookInMemory(key: string, now: int) returns (value: Option<V>)
      requires Valid()
      modifies this, l1
      ensures Valid() && value == FromMemory(old(Snapshot()), key, now)
      ensures Snapshot() == AfterMemoryLook(old(Snapshot()), key, now)
    {
      value := None;
      if l1 != null {
        var found := l1.Get(key, now);
        if found.Some? && found.value.Some? {
          l1Hits := l1Hits + 1;
          value := found.value;
        }
      }
    }

    method LookOnDisk(key: string, now: int) returns (value: Option<V>)
      requires Valid()
      modifies this, l2
      ensures Valid() && value == FromDisk(old(Snapshot()), key, now)
      ensures Snapshot() == AfterDiskLook(old(Snapshot()), key, now)
    {
      value := None;
      if l2 != null {
        value := l2.Get(key, now);
        if value.Some? {
          l2Hits := l2Hits + 1;
        }
      }
    }

    method Promote(key: string, value: V, now: int)
      requires Valid()
      modifies l1
      ensures Valid() && Snapshot() == Promoted(old(Snapshot()), key, value, now)
    {
      if l1 != null {
        l1.Put(key, Some(value), 0, now);
      }
    }

    /** The sections of a get, one after the other; other calls may run between them. */
    method Get(q: Query, at: Readings) returns (answer: Answer<V>)
      requires Valid()
      modifies this, l1, l2
      ensures Valid()
      ensures answer == Answered(old(Snapshot()), MakeKey(cfg, q), at.memory, at.disk)
      ensures Snapshot() == TiersAfterGet(old(Snapshot()), MakeKey(cfg, q), at)
    {
      var key := MakeKey(cfg, q);
      var value := LookInMemory(key, at.memory);
      if value.Some? {
        return Answer(value, Memory);
      }
      value := LookOnDisk(key, at.disk);
      if value.Some? {
        Promote(key, value.value, at.promotion);
        return Answer(value, Disk);
      }
      answer := Answer(None, Miss);
    }

    method Put(q: Query, value: Option<V>, ttl: int, size: nat, memoryAt: int, diskAt: int)
      requires Valid()
      modifies this, l1, l2
      ensures Valid()
      ensures Snapshot() ==
              PutOnDisk(cfg, PutInMemory(old(Snapshot()), MakeKey(cfg, q), value, size, memoryAt), q, value, ttl,
                        diskAt)
    {
      var key := MakeKey(cfg, q);
      var effective := if ttl == 0 then cfg.l2DefaultTtl else ttl;
      if l1 != null {
        l1.Put(key, value, size, memoryAt);
      }
      if l2 != null {
        l2.Put(key, value, effective, q.project, q.tool, diskAt);
      }
    }

    method Invalidate(project: string, tool: string, key: string)
      requires Valid()
      modifies this, l1, l2
      ensures Valid()
      ensures Snapshot() ==
              InvalidatedOnDisk(InvalidatedInMemory(old(Snapshot()), project, tool, key), project, tool, key)
    {
      if key != "" {
        if l1 != null { l1.Invalidate(key); }
        if l2 != null { l2.Invalidate(key); }
      } else if tool != "" {
        if l1 != null { l1.InvalidatePrefix(ToolPrefix(project, tool)); }
        if l2 != null { l2.InvalidatePrefix(ToolPrefix(project, tool)); }
      } else {
        if l1 != null { l1.InvalidatePrefix(ProjectPrefix(project)); }
        if l2 != null { l2.InvalidateProject(project); }
      }
    }
  }
}
