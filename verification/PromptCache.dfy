/** The cached system prompt and its check against file modification times, in a file system that is edited
    all the while (pkg/agent/context.go:153-371). */
module PromptCache {
  import opened Options

  type Path = string

  datatype File = File(content: string, mtime: int)

  type Files = map<Path, File>

  /** The file system at each instant; every stat, read and directory walk takes place at its own instant. */
  type World = nat -> Files

  /** The modification time used when nothing tracked exists. */
  const EARLIEST := 1

  /** Between two instants files may be created and edited, with modification times later than any before,
      but not deleted. */
  ghost predicate Evolves(a: Files, b: Files) {
    && a.Keys <= b.Keys
    && forall p <- b :: (p in a && b[p] == a[p]) || Newer(a, b[p].mtime)
  }

  ghost predicate Newer(a: Files, m: int) {
    EARLIEST < m && forall q <- a :: a[q].mtime < m
  }

  ghost predicate Edited(w: World) {
    forall t: nat :: Evolves(w(t), w(t + 1))
  }

  /** `m` is no later than some modification time in `a`. */
  ghost predicate Seen(a: Files, m: int) {
    m <= EARLIEST || exists q :: q in a && m <= a[q].mtime
  }

  lemma {:induction false} Persists(w: World, s: nat, u: nat)
    requires Edited(w) && s <= u
    ensures w(s).Keys <= w(u).Keys && forall p <- w(s) :: w(s)[p].mtime <= w(u)[p].mtime
    decreases u - s
  {
    if s < u {
      Persists(w, s, u - 1);
      assert Evolves(w(u - 1), w(u - 1 + 1));
    }
  }

  lemma PersistsAt(w: World, s: nat, u: nat, p: Path)
    requires Edited(w) && s <= u && p in w(s)
    ensures p in w(u) && w(s)[p].mtime <= w(u)[p].mtime
  {
    Persists(w, s, u);
  }

  lemma SeenLater(w: World, s: nat, u: nat, m: int)
    requires Edited(w) && s <= u && Seen(w(s), m)
    ensures Seen(w(u), m)
  {
    Persists(w, s, u);
  }

  /** A file whose modification time had been seen at `s` has not changed since. */
  lemma {:induction false} UnchangedSince(w: World, s: nat, u: nat, p: Path, m: int)
    requires Edited(w) && s <= u && Seen(w(s), m) && p in w(u) && w(u)[p].mtime <= m
    ensures p in w(s) && w(s)[p] == w(u)[p]
    decreases u - s
  {
    if s < u {
      assert Evolves(w(u - 1), w(u - 1 + 1));
      SeenLater(w, s, u - 1, m);
      UnchangedSince(w, s, u - 1, p, m);
    }
  }

  // ---------------------------------------------------------------- the cache

  /** What the built prompt is made from: the content every tracked file had when it was read. */
  type Prompt = map<Path, string>

  /** At file `p` the prompt shows what `fs` holds. */
  ghost predicate Shows(prompt: Prompt, fs: Files, p: Path) {
    if p in fs then p in prompt && prompt[p] == fs[p].content else p !in prompt
  }

  /** From instant `e` on, a tracked file no newer than `at` reads as in the prompt, and a missing one is missing
      there. */
  ghost predicate Sound(w: World, tracked: Path -> bool, prompt: Prompt, at: int, e: nat) {
    forall u: nat, p: Path :: e <= u && tracked(p) && (p in w(u) ==> w(u)[p].mtime <= at) ==> Shows(prompt, w(u), p)
  }

  /** At some instant from `a` to `b` the prompt showed file `p` as it was. */
  ghost predicate ShownDuring(w: World, prompt: Prompt, p: Path, a: nat, b: nat) {
    exists r: nat :: a <= r <= b && Shows(prompt, w(r), p)
  }

  /** From `a` to `b` nothing that is watched changed. */
  ghost predicate Still(w: World, watched: Path -> bool, a: nat, b: nat) {
    forall u: nat, p: Path :: a <= u <= b && watched(p) ==>
      (p in w(u) <==> p in w(a)) && (p in w(a) ==> w(u)[p] == w(a)[p])
  }

  class ContextBuilder {
    const sources: seq<Path>
    const skillsDir: Path
    const isSkill: Path -> bool

    var cachedSystemPrompt: Option<Prompt>
    var cachedAt: Option<int>
    var existedAtCache: Option<map<Path, bool>>
    ghost var builtFrom: nat
    ghost var builtBy: nat

    constructor (sources: seq<Path>, skillsDir: Path, isSkill: Path -> bool)
      ensures this.sources == sources && this.skillsDir == skillsDir && this.isSkill == isSkill
      ensures cachedSystemPrompt == None
    {
      this.sources, this.skillsDir, this.isSkill := sources, skillsDir, isSkill;
      cachedSystemPrompt, cachedAt, existedAtCache, builtFrom, builtBy := None, None, None, 0, 0;
    }

    /** The files whose content goes into the prompt. */
    predicate Tracked(p: Path) {
      p in sources || isSkill(p)
    }

    /** Everything the check looks at: the tracked files and the skills directory itself. */
    predicate Watched(p: Path) {
      Tracked(p) || p == skillsDir
    }

    /** A cached prompt is sound for every check from now on, and its reference time and record of existing
        files are those of some instant before. */
    ghost predicate Valid(w: World, now: nat)
      reads this
    {
      cachedSystemPrompt.Some? ==>
        && cachedAt.Some? && existedAtCache.Some? && builtFrom <= builtBy <= now
        && Sound(w, Tracked, cachedSystemPrompt.value, cachedAt.value, builtBy)
        && Baseline(w, existedAtCache.value, cachedAt.value, builtFrom, builtBy)
    }

    /** What a baseline taken between `a` and `b` knows. */
    ghost predicate Baseline(w: World, existed: map<Path, bool>, maxMtime: int, a: nat, b: nat) {
      && (forall p :: p in existed <==> p in sources || p == skillsDir)
      && (forall p <- existed :: if existed[p] then p in w(b) else p !in w(a))
      && (forall p <- w(a) :: Watched(p) ==> w(a)[p].mtime <= maxMtime)
    }

    /** Existence and latest modification time of the source files and the skills directory. */
    method StatPaths(w: World, t0: nat) returns (existed: map<Path, bool>, latest: Option<int>, t: nat)
      requires Edited(w)
      ensures t0 <= t && (latest.Some? ==> Seen(w(t), latest.value))
      ensures forall p :: p in existed <==> p in sources || p == skillsDir
      ensures forall p <- existed :: if existed[p] then p in w(t) else p !in w(t0)
      ensures forall p <- w(t0) :: p in existed ==> latest.Some? && w(t0)[p].mtime <= latest.value
      ensures latest.Some? ==> exists p <- existed :: existed[p]
    {
      t, existed, latest := t0, map[], None;
      var allPaths := sources + [skillsDir];
      var i := 0;
      while i < |allPaths|
        invariant 0 <= i <= |allPaths| && t0 <= t
        invariant latest.Some? ==> Seen(w(t), latest.value)
        invariant forall p :: p in existed <==> p in allPaths[..i]
        invariant forall p <- existed :: if existed[p] then p in w(t) else p !in w(t0)
        invariant forall p <- w(t0) :: p in existed ==> latest.Some? && w(t0)[p].mtime <= latest.value
        invariant latest.Some? ==> exists p <- existed :: existed[p]
      {
        var p := allPaths[i];
        assert allPaths[..i + 1] == allPaths[..i] + [p];
        Persists(w, t0, t);
        Persists(w, t, t + 1);
        var found := p in w(t);
        ghost var before := existed;
        existed := existed[p := found];
        assert p in existed && existed[p] == found;
        assert forall q <- before :: q != p ==> existed[q] == before[q];
        if found && (latest.None? || w(t)[p].mtime > latest.value) {
          latest := Some(w(t)[p].mtime);
        }
        if latest.Some? {
          SeenLater(w, t, t + 1, latest.value);
        }
        t := t + 1;
        i := i + 1;
      }
      assert allPaths[..i] == allPaths;
    }

    /** The walk over the skill files: one listing, then a stat of each file. */
    method WalkSkills(w: World, t0: nat, soFar: Option<int>) returns (latest: Option<int>, t: nat)
      requires Edited(w) && (soFar.Some? ==> Seen(w(t0), soFar.value))
      ensures t0 <= t && (latest.Some? ==> Seen(w(t), latest.value))
      ensures soFar.Some? ==> latest.Some? && soFar.value <= latest.value
      ensures forall p <- w(t0) :: isSkill(p) ==> latest.Some? && w(t0)[p].mtime <= latest.value
      ensures latest.Some? ==> soFar.Some? || exists p <- w(t0) :: isSkill(p)
    {
      latest := soFar;
      var rest := set p | p in w(t0) && isSkill(p);
      t := t0;
      while rest != {}
        invariant t0 <= t && rest <= w(t0).Keys
        invariant latest.Some? ==> Seen(w(t), latest.value)
        invariant soFar.Some? ==> latest.Some? && soFar.value <= latest.value
        invariant forall p <- w(t0) :: isSkill(p) && p !in rest ==> latest.Some? && w(t0)[p].mtime <= latest.value
        invariant forall p <- rest :: isSkill(p)
        invariant latest.Some? ==> soFar.Some? || exists p <- w(t0) :: isSkill(p)
        decreases rest
      {
        var p :| p in rest;
        rest := rest - {p};
        PersistsAt(w, t0, t + 1, p);
        if latest.Some? {
          SeenLater(w, t, t + 1, latest.value);
        }
        t := t + 1;
        if latest.None? || w(t)[p].mtime > latest.value {
          latest := Some(w(t)[p].mtime);
        }
      }
    }

    /** The baseline: what existed, and a time later than which every later edit will be. */
    method BuildCacheBaseline(w: World, t0: nat) returns (existed: map<Path, bool>, maxMtime: int, t: nat)
      requires Edited(w)
      ensures t0 <= t && Seen(w(t), maxMtime) && Baseline(w, existed, maxMtime, t0, t)
      ensures (forall p <- w(t) :: p !in sources && p != skillsDir && !isSkill(p)) ==> maxMtime == 1
    {
      var latest, t1;
      existed, latest, t1 := StatPaths(w, t0);
      latest, t := WalkSkills(w, t1, latest);
      maxMtime := if latest.Some? then latest.value else EARLIEST;
      Persists(w, t0, t1);
      Persists(w, t1, t);
    }

    /** Reading everything the prompt is built from, file after file. */
    method BuildSystemPrompt(w: World, t0: nat) returns (prompt: Prompt, t: nat)
      requires Edited(w)
      ensures t0 <= t
      ensures AllShownDuring(w, prompt, t0, t)
    {
      prompt, t := map[], t0;
      var i := 0;
      while i < |sources|
        invariant 0 <= i <= |sources| && t0 <= t
        invariant prompt.Keys <= set p | p in sources[..i]
        invariant forall p <- sources[..i] :: ShownDuring(w, prompt, p, t0, t)
      {
        ghost var before := prompt;
        var p := sources[i];
        assert sources[..i + 1] == sources[..i] + [p];
        prompt := if p in w(t) then prompt[p := w(t)[p].content] else prompt - {p};
        assert Shows(prompt, w(t), p);
        StillShown(w, before, prompt, p, t0, t);
        t := t + 1;
        i := i + 1;
      }
      assert sources[..i] == sources;
      var rest := set p | p in w(t) && isSkill(p);
      forall p | isSkill(p) && p !in sources && p !in rest ensures ShownDuring(w, prompt, p, t0, t + 1) {
        assert Shows(prompt, w(t), p);
      }
      StillShown(w, prompt, prompt, skillsDir, t0, t);
      t := t + 1;
      while rest != {}
        invariant t0 <= t
        invariant forall p :: Tracked(p) && p !in rest ==> ShownDuring(w, prompt, p, t0, t)
        decreases rest
      {
        ghost var before := prompt;
        var p :| p in rest;
        rest := rest - {p};
        prompt := if p in w(t) then prompt[p := w(t)[p].content] else prompt - {p};
        assert Shows(prompt, w(t), p);
        StillShown(w, before, prompt, p, t0, t);
        t := t + 1;
      }
    }

    lemma StillShown(w: World, before: Prompt, after: Prompt, p: Path, a: nat, b: nat)
      requires forall q :: q != p ==> (q in before <==> q in after) && (q in before ==> before[q] == after[q])
      ensures forall q, c: nat :: q != p && b <= c && ShownDuring(w, before, q, a, b) ==> ShownDuring(w, after, q, a, c)
    {
    }

    /** The code's test of one path: existence against the record, else the modification time. */
    method FileChangedSince(path: Path, now: Files) returns (changed: bool)
      ensures changed <==>
                existedAtCache.None? || cachedAt.None? ||
                PathChanged(existedAtCache.value, cachedAt.value, now, path)
    {
      if existedAtCache.None? || cachedAt.None? {
        return true;
      }
      var existedBefore := path in existedAtCache.value && existedAtCache.value[path];
      var existsNow := path in now;
      if existedBefore != existsNow {
        return true;
      }
      if !existsNow {
        return false;
      }
      return now[path].mtime > cachedAt.value;
    }

    predicate PathChanged(existed: map<Path, bool>, at: int, now: Files, p: Path) {
      (p in existed && existed[p]) != (p in now) || (p in now && at < now[p].mtime)
    }

    /** The check of the source files and the skills directory. */
    method PathsChanged(w: World, t0: nat) returns (changed: bool, t: nat)
      requires Edited(w) && cachedAt.Some? && existedAtCache.Some?
      ensures t0 <= t
      ensures !changed ==> forall p <- sources + [skillsDir] :: p in w(t0) ==> w(t0)[p].mtime <= cachedAt.value
      ensures !changed ==> forall p <- sources + [skillsDir] :: ExistsAsRecorded(w, p, t0, t)
      ensures changed ==> DiffersDuring(w, t0, t)
    {
      t := t0;
      var paths := sources + [skillsDir];
      var i := 0;
      while i < |paths|
        invariant 0 <= i <= |paths| && t0 <= t
        invariant forall p <- paths[..i] :: p in w(t0) ==> w(t0)[p].mtime <= cachedAt.value
        invariant forall p <- paths[..i] :: ExistsAsRecorded(w, p, t0, t)
      {
        var p := paths[i];
        assert paths[..i + 1] == paths[..i] + [p];
        var c := FileChangedSince(p, w(t));
        if c {
          assert Watched(p) && Differs(w, t, p);
          return true, t + 1;
        }
        if p in w(t0) {
          PersistsAt(w, t0, t, p);
        }
        t := t + 1;
        i := i + 1;
      }
      assert paths[..i] == paths;
      changed := false;
    }

    /** The check of the skill files: one listing, then a stat of each. */
    method SkillFilesModified(w: World, t0: nat) returns (changed: bool, t: nat)
      requires Edited(w) && cachedAt.Some? && existedAtCache.Some?
      ensures t0 <= t
      ensures !changed ==> forall p <- w(t0) :: isSkill(p) ==> w(t0)[p].mtime <= cachedAt.value
      ensures changed ==> DiffersDuring(w, t0, t)
    {
      ghost var files := w(t0);
      var rest := set p | p in w(t0) && isSkill(p);
      t := t0;
      while rest != {}
        invariant t0 <= t && rest <= files.Keys && forall p <- rest :: isSkill(p)
        invariant forall p <- files :: isSkill(p) && p !in rest ==> files[p].mtime <= cachedAt.value
        decreases rest
      {
        var p :| p in rest;
        rest := rest - {p};
        t := t + 1;
        PersistsAt(w, t0, t, p);
        if w(t)[p].mtime > cachedAt.value {
          assert Watched(p) && Differs(w, t, p);
          return true, t + 1;
        }
      }
      changed := false;
    }

    /** The check. When it reports no change, no tracked file was newer than the reference time when the check
        began. When it reports one, then some watched file differed at some instant of the check. */
    method SourceFilesChanged(w: World, t0: nat) returns (changed: bool, t: nat)
      requires Edited(w)
      ensures t0 <= t
      ensures !changed ==> cachedAt.Some? && existedAtCache.Some?
      ensures !changed ==> forall p <- w(t0) :: Tracked(p) ==> w(t0)[p].mtime <= cachedAt.value
      ensures !changed ==> forall p <- w(t0) :: p in sources || isSkill(p) || p == skillsDir ==>
                             w(t0)[p].mtime <= cachedAt.value
      ensures !changed ==> forall p :: p in sources || p == skillsDir ==> ExistsAsRecorded(w, p, t0, t)
      ensures changed && cachedAt.Some? && existedAtCache.Some? ==> DiffersDuring(w, t0, t)
    {
      if cachedAt.None? {
        return true, t0;
      }
      if existedAtCache.None? {
        return true, t0 + 1;
      }
      changed, t := PathsChanged(w, t0);
      if changed {
        return;
      }
      var t1 := t;
      changed, t := SkillFilesModified(w, t1);
      if !changed {
        forall p | p in sources || p == skillsDir ensures ExistsAsRecorded(w, p, t0, t) {
          assert p in sources + [skillsDir];
          assert ExistsAsRecorded(w, p, t0, t1);
        }
        forall p | p in w(t0) && isSkill(p) ensures w(t0)[p].mtime <= cachedAt.value {
          PersistsAt(w, t0, t1, p);
        }
      }
    }

    /** At some instant from `a` until before `b` the path existed if and only if it did at the baseline. */
    ghost predicate ExistsAsRecorded(w: World, p: Path, a: nat, b: nat)
      requires existedAtCache.Some?
      reads this
    {
      exists u: nat :: a <= u < b && (p in w(u) <==> p in existedAtCache.value && existedAtCache.value[p])
    }

    ghost predicate DiffersDuring(w: World, a: nat, b: nat)
      requires cachedAt.Some? && existedAtCache.Some?
      reads this
    {
      exists u: nat, p: Path :: a <= u < b && Watched(p) && Differs(w, u, p)
    }

    /** At instant `u` a watched file is newer than the reference time, or a source file or the skills
        directory exists now and did not then, or the other way round. */
    ghost predicate Differs(w: World, u: nat, p: Path)
      requires cachedAt.Some? && existedAtCache.Some?
      reads this
    {
      || (p in w(u) && cachedAt.value < w(u)[p].mtime)
      || ((p in sources || p == skillsDir) && PathChanged(existedAtCache.value, cachedAt.value, w(u), p))
    }

    // -------------------------------------------------------------- what the check is worth

    /** A prompt read after its baseline is sound: whatever is no newer than the reference time at some later
        instant has not changed since before it was read. */
    lemma BuiltIsSound(w: World, prompt: Prompt, at: int, base: nat, e: nat)
      requires Edited(w) && base <= e && Seen(w(base), at)
      requires AllShownDuring(w, prompt, base, e)
      ensures Sound(w, Tracked, prompt, at, e)
    {
      forall u: nat, p: Path | e <= u && Tracked(p) && (p in w(u) ==> w(u)[p].mtime <= at)
        ensures Shows(prompt, w(u), p)
      {
        var r: nat :| base <= r <= e && Shows(prompt, w(r), p);
        SeenLater(w, base, r, at);
        if p in w(u) {
          UnchangedSince(w, r, u, p, at);
        } else if p in w(r) {
          PersistsAt(w, r, u, p);
        }
      }
    }

    /** The order matters: with a reference time taken after the reading, a file edited in between stays stale
        and passes for unchanged. */
    lemma LateBaselineIsStale(w: World, prompt: Prompt, p: Path, r: nat, base: nat)
      requires Tracked(p) && r < base && p in w(r) && p in w(base) && w(r)[p].content != w(base)[p].content
      requires p in prompt && prompt[p] == w(r)[p].content
      ensures !Sound(w, Tracked, prompt, w(base)[p].mtime, base)
    {
      assert !Shows(prompt, w(base), p);
    }

    /** The check reports no change only if the cached prompt shows every tracked file as it was when the
        check began. */
    lemma UnchangedIsFresh(w: World, t0: nat)
      requires Valid(w, t0) && cachedSystemPrompt.Some?
      requires forall p <- w(t0) :: Tracked(p) ==> w(t0)[p].mtime <= cachedAt.value
      ensures forall p :: Tracked(p) ==> Shows(cachedSystemPrompt.value, w(t0), p)
    {
    }

    /** If nothing watched has changed since the baseline was begun, the check reports no change. */
    lemma StillIsUnchanged(w: World, t0: nat, t: nat)
      requires Valid(w, t0) && cachedSystemPrompt.Some? && t0 <= t && Still(w, Watched, builtFrom, t)
      ensures !DiffersDuring(w, t0, t)
    {
      forall u: nat, p: Path | t0 <= u < t && Watched(p) ensures !Differs(w, u, p) {
        assert p in w(builtBy) <==> p in w(builtFrom);
        assert p in w(u) <==> p in w(builtFrom);
      }
    }

    /** Every call returns a prompt that shows every tracked file as it was at some instant during the call,
        whether it was cached, rebuilt, or rebuilt by someone else meanwhile. */
    method BuildSystemPromptWithCache(w: World, t0: nat) returns (prompt: Prompt, t: nat)
      requires Edited(w) && Valid(w, t0)
      modifies this
      ensures t0 <= t && Valid(w, t) && cachedSystemPrompt == Some(prompt)
      ensures AllShownDuring(w, prompt, t0, t)
    {
      var upToDate;
      upToDate, t := CachedIsFresh(w, t0);
      if upToDate {
        return cachedSystemPrompt.value, t;
      }
      t := OtherGoroutines(w, t);
      ghost var t2 := t;
      upToDate, t := CachedIsFresh(w, t);
      if upToDate {
        prompt := cachedSystemPrompt.value;
        ShownLonger(w, prompt, t0, t2, t, t);
        return;
      }
      ghost var t3 := t;
      prompt, t := Rebuild(w, t);
      ShownLonger(w, prompt, t0, t3, t, t);
    }

    /** The test made under either lock: there is a cached prompt and the check reports no change. */
    method CachedIsFresh(w: World, t0: nat) returns (upToDate: bool, t: nat)
      requires Edited(w) && Valid(w, t0)
      ensures t0 <= t && Valid(w, t)
      ensures upToDate ==> cachedSystemPrompt.Some? && AllShownDuring(w, cachedSystemPrompt.value, t0, t)
      ensures cachedSystemPrompt.Some? && Still(w, Watched, builtFrom, t) ==> upToDate
    {
      if cachedSystemPrompt.None? {
        return false, t0;
      }
      var changed;
      changed, t := SourceFilesChanged(w, t0);
      if !changed {
        UnchangedIsFresh(w, t0);
        forall p | Tracked(p) ensures ShownDuring(w, cachedSystemPrompt.value, p, t0, t) {
          assert Shows(cachedSystemPrompt.value, w(t0), p);
        }
      } else if Still(w, Watched, builtFrom, t) {
        StillIsUnchanged(w, t0, t);
      }
      upToDate := !changed;
    }

    /** Between the two locks other goroutines may rebuild or drop the cache, any number of times. */
    method OtherGoroutines(w: World, t0: nat) returns (t: nat)
      requires Edited(w) && Valid(w, t0)
      modifies this
      ensures t0 <= t && Valid(w, t)
    {
      t := t0;
      var turns: nat := *;
      while turns > 0
        invariant t0 <= t && Valid(w, t)
      {
        if * {
          InvalidateCache();
        } else {
          var p;
          p, t := Rebuild(w, t);
        }
        turns := turns - 1;
      }
    }

    ghost predicate AllShownDuring(w: World, prompt: Prompt, a: nat, b: nat) {
      forall p :: Tracked(p) ==> ShownDuring(w, prompt, p, a, b)
    }

    /** What that says: of every source and every skill file the prompt has the content of some instant from `a`
        to `b`, and has nothing of it only if it was missing at some such instant. */
    lemma AllShownExactly(w: World, prompt: Prompt, a: nat, b: nat)
      ensures AllShownDuring(w, prompt, a, b) <==>
                forall p :: p in sources || isSkill(p) ==>
                  if p in prompt then exists r: nat :: a <= r <= b && p in w(r) && prompt[p] == w(r)[p].content
                  else exists r: nat :: a <= r <= b && p !in w(r)
    {
      if AllShownDuring(w, prompt, a, b) {
        forall p | p in sources || isSkill(p)
          ensures if p in prompt then exists r: nat :: a <= r <= b && p in w(r) && prompt[p] == w(r)[p].content
                  else exists r: nat :: a <= r <= b && p !in w(r)
        {
          assert ShownDuring(w, prompt, p, a, b);
        }
      }
    }

    lemma ShownLonger(w: World, prompt: Prompt, a: nat, b: nat, c: nat, d: nat)
      requires a <= b && c <= d && AllShownDuring(w, prompt, b, c)
      ensures AllShownDuring(w, prompt, a, d)
    {
      forall p | Tracked(p) ensures ShownDuring(w, prompt, p, a, d) {
        assert ShownDuring(w, prompt, p, b, c);
      }
    }

    /** Under the write lock: baseline first, then the prompt. */
    method Rebuild(w: World, t0: nat) returns (prompt: Prompt, t: nat)
      requires Edited(w)
      modifies this
      ensures t0 <= t && Valid(w, t) && cachedSystemPrompt == Some(prompt)
      ensures AllShownDuring(w, prompt, t0, t)
    {
      var existed, maxMtime, t1 := BuildCacheBaseline(w, t0);
      prompt, t := BuildSystemPrompt(w, t1);
      BuiltIsSound(w, prompt, maxMtime, t1, t);
      BaselineLater(w, existed, maxMtime, t0, t1, t);
      cachedSystemPrompt := Some(prompt);
      cachedAt := Some(maxMtime);
      existedAtCache := Some(existed);
      builtFrom, builtBy := t0, t;
      ShownLonger(w, prompt, t0, t1, t, t);
    }

    lemma BaselineLater(w: World, existed: map<Path, bool>, maxMtime: int, a: nat, b: nat, c: nat)
      requires Edited(w) && a <= b <= c && Baseline(w, existed, maxMtime, a, b)
      ensures Baseline(w, existed, maxMtime, a, c)
    {
      Persists(w, b, c);
    }

    method InvalidateCache()
      modifies this
      ensures cachedSystemPrompt == None
    {
      cachedSystemPrompt, cachedAt, existedAtCache := None, None, None;
    }

  }
}
