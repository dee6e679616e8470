/**
 The build cache that travels between jobs: restore lays a payload over the
 helper image's cache, export writes back what was added, newest first, within
 a size limit. Directories are maps from object paths to what is stored there.
 */
module GoCache {
  import opened Common

  const LIMIT: nat := 512 * 1024 * 1024

  /** An object is an entry of the cache, or the one file inside an entry that is a directory. */
  datatype Path = Path(entry: nat, file: Option<Text>)

  datatype Info = Info(size: nat, mtime: int, content: nat)

  type Dir = map<Path, Info>

  /** What listing a cache yields: an entry holds one object. */
  ghost predicate OnePerEntry(d: Dir) {
    forall p, q :: p in d && q in d && p.entry == q.entry ==> p == q
  }

  ghost function Pick(d: Dir): (p: Path)
    requires d != map[]
    ensures p in d
  {
    var p :| p in d;
    p
  }

  ghost function Total(d: Dir): nat
    decreases |d|
  {
    if d == map[] then 0 else d[Pick(d)].size + Total(d - {Pick(d)})
  }

  lemma {:induction false} TotalWithout(d: Dir, p: Path)
    requires p in d
    ensures Total(d) == d[p].size + Total(d - {p})
    decreases |d|
  {
    var q := Pick(d);
    if q != p {
      TotalWithout(d - {q}, p);
      TotalWithout(d - {p}, q);
      assert d - {q} - {p} == d - {p} - {q};
    }
  }

  lemma TotalAdd(d: Dir, p: Path, info: Info)
    requires p !in d
    ensures Total(d[p := info]) == Total(d) + info.size
  {
    TotalWithout(d[p := info], p);
    assert d[p := info] - {p} == d;
  }

  lemma {:induction false} TotalWithin(d: Dir, e: Dir)
    requires forall p :: p in d ==> p in e && e[p] == d[p]
    ensures Total(d) <= Total(e)
    decreases |d|
  {
    if d != map[] {
      var p := Pick(d);
      TotalWithin(d - {p}, e - {p});
      TotalWithout(e, p);
    }
  }

  /** What was added to the cache since the baseline was taken. */
  function Added(local: Dir, baseline: set<Path>): Dir {
    map p | p in local && p !in baseline :: local[p]
  }

  predicate Within(d: Dir, e: Dir) {
    forall p :: p in d ==> p in e && e[p] == d[p]
  }

  /** The objects no older than `mtime`. */
  function NoOlder(d: Dir, mtime: int): Dir {
    map p | p in d && d[p].mtime >= mtime :: d[p]
  }

  /**
   What a bounded export may be: objects that were added and fit the limit,
   leaving out only what does not fit beside the newer objects that were kept.
   */
  ghost predicate Exported(local: Dir, baseline: set<Path>, payload: Dir) {
    && Within(payload, Added(local, baseline))
    && Total(payload) <= LIMIT
    && forall p :: p in Added(local, baseline) && p !in payload ==>
         local[p].size + Total(NoOlder(payload, local[p].mtime)) > LIMIT
  }

  class Cache {
    var local: Dir
    var payload: Dir
    var baseline: set<Path>

    constructor (image: Dir, payload: Dir)
      ensures local == image && this.payload == payload && baseline == {}
    {
      this.local := image;
      this.payload := payload;
      baseline := {};
    }

    method Size(d: Dir) returns (size: nat)
      ensures size == Total(d)
    {
      var todo := d;
      size := 0;
      while todo != map[]
        invariant size + Total(todo) == Total(d)
        decreases |todo|
      {
        var p :| p in todo;
        TotalWithout(todo, p);
        size := size + todo[p].size;
        todo := todo - {p};
      }
    }

    /** Remember the image's own objects, then overlay the payload unless it is too big or contradicts them. */
    method Restore() returns (accepted: bool)
      requires OnePerEntry(local) && OnePerEntry(payload)
      modifies this`local, this`baseline
      ensures baseline == old(local).Keys
      ensures accepted <==> Total(payload) <= LIMIT && OnePerEntry(old(local) + payload)
      ensures local == if accepted then old(local) + payload else old(local)
      ensures OnePerEntry(local)
    {
      baseline := local.Keys;
      var size := Size(payload);
      if size > LIMIT {
        return false;
      }
      var todo := payload.Keys;
      while todo != {}
        invariant todo <= payload.Keys
        invariant forall p, q :: p in payload && p !in todo && q in local && p.entry == q.entry ==> p == q
      {
        var p :| p in todo;
        if q :| q in local && q.entry == p.entry && q != p {
          assert p in local + payload && q in local + payload;
          return false;
        }
        todo := todo - {p};
      }
      local := local + payload;
      accepted := true;
    }

    /** Replace the payload by the objects added since, newest first, skipping what no longer fits. */
    method Export() returns (count: nat, size: nat)
      modifies this`payload
      ensures Exported(local, baseline, payload)
      ensures count == |payload| && size == Total(payload)
    {
      hide Going, Added, NoOlder;
      payload := map[];
      count, size := 0, 0;
      StartGoing(local, baseline);
      var todo := local;
      while todo != map[]
        invariant Going(local, baseline, payload, todo)
        invariant count == |payload| && size == Total(payload) <= LIMIT
        decreases |todo|
      {
        var p := Newest(todo);
        ghost var before := payload;
        if p !in baseline && size + todo[p].size <= LIMIT {
          Disjoint(local, baseline, payload, todo, p);
          TotalAdd(payload, p, todo[p]);
          payload := payload[p := todo[p]];
          count := count + 1;
          size := size + todo[p].size;
        }
        GoingOn(local, baseline, before, payload, todo, p);
        todo := todo - {p};
      }
      GoneThrough(local, baseline, payload);
    }

    method Newest(d: Dir) returns (p: Path)
      requires d != map[]
      ensures p in d && forall q :: q in d ==> d[q].mtime <= d[p].mtime
    {
      p :| p in d;
      var todo := d - {p};
      while todo != map[]
        invariant Within(todo, d) && p in d
        invariant forall q :: q in d && q !in todo ==> d[q].mtime <= d[p].mtime
        decreases |todo|
      {
        var q :| q in todo;
        if d[q].mtime > d[p].mtime {
          p := q;
        }
        todo := todo - {q};
      }
    }
  }

  /** Between two objects of an export: `todo` is what has not been looked at. */
  ghost predicate Going(local: Dir, baseline: set<Path>, payload: Dir, todo: Dir) {
    && Within(todo, local) && Within(payload, Added(local, baseline)) && payload.Keys !! todo.Keys
    && (forall p, q :: p in local && p !in todo && q in todo ==> local[p].mtime >= local[q].mtime)
    && (forall p :: p in Added(local, baseline) && p !in todo && p !in payload ==>
          local[p].size + Total(NoOlder(payload, local[p].mtime)) > LIMIT)
  }

  lemma StartGoing(local: Dir, baseline: set<Path>)
    ensures Going(local, baseline, map[], local)
  {
  }

  lemma Disjoint(local: Dir, baseline: set<Path>, payload: Dir, todo: Dir, p: Path)
    requires Going(local, baseline, payload, todo) && p in todo
    ensures p !in payload
  {
  }

  lemma GoneThrough(local: Dir, baseline: set<Path>, payload: Dir)
    requires Going(local, baseline, payload, map[]) && Total(payload) <= LIMIT
    ensures Exported(local, baseline, payload)
  {
  }

  /** Keeping or skipping the newest object left keeps every earlier refusal justified, and justifies its own. */
  lemma GoingOn(local: Dir, baseline: set<Path>, before: Dir, after: Dir, todo: Dir, p: Path)
    requires Going(local, baseline, before, todo) && p in todo
    requires forall q :: q in todo ==> todo[q].mtime <= todo[p].mtime
    requires after == if p !in baseline && Total(before) + todo[p].size <= LIMIT then before[p := todo[p]] else before
    ensures Going(local, baseline, after, todo - {p})
  {
    forall q | q in Added(local, baseline) && q !in todo - {p} && q !in after
      ensures local[q].size + Total(NoOlder(after, local[q].mtime)) > LIMIT
    {
      if q == p {
        assert NoOlder(after, local[q].mtime) == before;
      } else {
        TotalWithin(NoOlder(before, local[q].mtime), NoOlder(after, local[q].mtime));
      }
    }
  }

  // ----- what an export is worth -----

  /** An omitted object does not fit beside the final export. */
  lemma OmittedDoesNotFit(local: Dir, baseline: set<Path>, payload: Dir, p: Path)
    requires Exported(local, baseline, payload) && p in local && p !in baseline && p !in payload
    ensures Total(payload) + local[p].size > LIMIT
  {
    assert p in Added(local, baseline);
    TotalWithin(NoOlder(payload, local[p].mtime), payload);
  }

  /** If everything that was added fits, everything is exported, whatever the ages. */
  lemma NothingThatFitsIsLost(local: Dir, baseline: set<Path>, payload: Dir)
    requires Exported(local, baseline, payload) && Total(Added(local, baseline)) <= LIMIT
    ensures payload == Added(local, baseline)
  {
    var added := Added(local, baseline);
    forall p | p in added ensures p in payload {
      if p !in payload {
        OmittedDoesNotFit(local, baseline, payload, p);
        TotalAdd(payload, p, local[p]);
        TotalWithin(payload[p := local[p]], added);
        assert false;
      }
    }
  }

  /**
   Export undoes restore: after an accepted restore over an image, any export
   writes exactly the payload without the image's own objects.
   */
  lemma ExportUndoesRestore(image: Dir, payload: Dir, exported: Dir)
    requires Total(payload) <= LIMIT && Exported(image + payload, image.Keys, exported)
    ensures exported == payload - image.Keys
  {
    var added := Added(image + payload, image.Keys);
    assert added == payload - image.Keys;
    TotalWithin(added, payload);
    NothingThatFitsIsLost(image + payload, image.Keys, exported);
  }

  /** A whole cycle, run: restore a payload over an image, export, and the payload is back without the image's objects. */
  method Cycle(image: Dir, payload: Dir) returns (accepted: bool, exported: Dir)
    requires OnePerEntry(image) && OnePerEntry(payload)
    ensures accepted <==> Total(payload) <= LIMIT && OnePerEntry(image + payload)
    ensures exported == if accepted then payload - image.Keys else map[]
  {
    var cache := new Cache(image, payload);
    accepted := cache.Restore();
    var _, _ := cache.Export();
    exported := cache.payload;
    if accepted {
      ExportUndoesRestore(image, payload, exported);
    } else {
      assert Added(image, image.Keys) == map[];
      assert exported == map[];
    }
  }
}
