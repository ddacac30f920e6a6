/** The disk and the files_meta rows agree, whatever is uploaded or deleted. */
module UploadsProofs {
  import opened Bytes
  import opened Wrappers
  import opened Uploads

  // ---- The agreement of the two stores -------------------------------------------

  ghost predicate Injective(hash: seq<byte> -> string) {
    forall x, y :: hash(x) == hash(y) ==> x == y
  }

  /** A row describes the file at its path, in its owner's directory. */
  predicate Describes(s: Stores, row: Row, env: Env) {
    row.path in s.disk && row.size == |s.disk[row.path]| && row.hash == env.hash(s.disk[row.path])
    && row.path.userId == row.userId && row.id < s.nextId
  }

  predicate Distinct(a: Row, b: Row) {
    a.id != b.id && a.path != b.path && (a.hash != b.hash || a.userId != b.userId)
  }

  /** The files are exactly the rows' files; ids, paths and each user's
      contents are unique. */
  ghost predicate Agree(s: Stores, env: Env) {
    && (forall i :: 0 <= i < |s.rows| ==> Describes(s, s.rows[i], env))
    && (forall i, j :: 0 <= i < j < |s.rows| ==> Distinct(s.rows[i], s.rows[j]))
    && (forall p :: p in s.disk ==> Taken(s.rows, p))
  }

  /** The random staging name is neither in use nor a name the upload can get. */
  ghost predicate Fresh(s: Stores, req: Request, staging: Path, env: Env) {
    staging !in s.disk && staging != Plain(req)
    && forall k :: 0 <= k <= |env.hash(Staged(req))| ==> staging != Suffixed(req, env.hash(Staged(req)), k)
  }

  // ---- Names ---------------------------------------------------------------------

  /** Neither a dot nor a slash. */
  predicate Plainly(s: string) {
    forall i :: 0 <= i < |s| ==> s[i] != '.' && s[i] != '/'
  }

  /** A dot of the last path component. */
  predicate LastDots(name: string, i: nat) {
    i < |name| && name[i] == '.' && forall j :: i < j < |name| ==> name[j] != '/'
  }

  ghost predicate HasLastDot(name: string) {
    exists i :: LastDots(name, i)
  }

  /** The extension goes from the last dot of the last component on; there is
      none exactly if that component has no dot. */
  lemma ExtIs(name: string)
    ensures var e := Ext(name); e != "" ==> e[0] == '.' && Plainly(e[1..])
    ensures Ext(name) != "" <==> HasLastDot(name)
  {
    ExtClean(name);
    ExtIff(name);
  }

  predicate CleanExt(e: string) {
    e != "" ==> e[0] == '.' && Plainly(e[1..])
  }

  lemma {:induction false} ExtClean(name: string)
    ensures CleanExt(Ext(name))
    decreases |name|
  {
    if name != "" && name[|name| - 1] != '.' && name[|name| - 1] != '/' {
      ExtClean(name[..|name| - 1]);
      var e := Ext(name[..|name| - 1]);
      if e != "" { CleanSnoc(e, name[|name| - 1]); }
    }
  }

  lemma CleanSnoc(e: string, c: char)
    requires e != "" && e[0] == '.' && Plainly(e[1..]) && c != '.' && c != '/'
    ensures (e + [c])[0] == '.' && Plainly((e + [c])[1..])
  {
    assert (e + [c])[1..] == e[1..] + [c];
  }

  lemma {:induction false} ExtIff(name: string)
    ensures Ext(name) != "" <==> HasLastDot(name)
    decreases |name|
  {
    if name != "" {
      ExtIff(name[..|name| - 1]);
      if name[|name| - 1] == '.' {
        assert LastDots(name, |name| - 1);
      } else {
        LastDotStays(name);
      }
    }
  }

  lemma LastDotStays(name: string)
    requires name != "" && name[|name| - 1] != '.'
    ensures HasLastDot(name) <==> name[|name| - 1] != '/' && HasLastDot(name[..|name| - 1])
  {
    var n := |name| - 1;
    if HasLastDot(name) {
      var i :| LastDots(name, i);
      assert LastDots(name[..n], i) && name[n] != '/';
    }
    if name[n] != '/' && HasLastDot(name[..n]) {
      var i :| LastDots(name[..n], i);
      assert LastDots(name, i);
    }
  }

  lemma {:induction false} ExtPrinted(base: string, ext: string)
    requires Plainly(ext)
    ensures Ext(base + "." + ext) == "." + ext
    decreases |ext|
  {
    var name := base + "." + ext;
    var n := |name| - 1;
    if ext == "" {
      assert name[n] == '.';
    } else {
      var init := ext[..|ext| - 1];
      assert name[..n] == base + "." + init && name[n] == ext[|ext| - 1];
      ExtPrinted(base, init);
      assert "." + ext == "." + init + [name[n]];
    }
  }

  lemma BasePrinted(base: string, ext: string)
    requires Plainly(ext)
    ensures Base(base + "." + ext) == base
  {
    ExtPrinted(base, ext);
    assert (base + "." + ext)[..|base|] == base;
  }

  lemma {:induction false} ExtNone(name: string)
    requires Plainly(name)
    ensures Ext(name) == "" && Base(name) == name
    decreases |name|
  {
    if name != "" { ExtNone(name[..|name| - 1]); }
  }

  /** A cover is a name with one of five extensions, in any case. */
  lemma CoverPrinted(base: string, ext: string)
    requires Plainly(ext)
    ensures IsCover(base + "." + ext) <==> ToLower(ext) in {"jpg", "jpeg", "png", "webp", "gif"}
  {
    ExtPrinted(base, ext);
    LowerDotted(ext);
    CoverExtension(ToLower(ext));
  }

  lemma LowerDotted(ext: string)
    ensures ToLower("." + ext) == "." + ToLower(ext)
  {
  }

  lemma CoverExtension(e: string)
    ensures "." + e in {".jpg", ".jpeg", ".png", ".webp", ".gif"} <==> e in {"jpg", "jpeg", "png", "webp", "gif"}
  {
    var dotted := "." + e;
    assert dotted[1..] == e;
    if |e| == 3 {
      assert dotted == ['.', e[0], e[1], e[2]] && e == [e[0], e[1], e[2]];
    } else if |e| == 4 {
      assert dotted == ['.', e[0], e[1], e[2], e[3]] && e == [e[0], e[1], e[2], e[3]];
    }
  }

  /** Upper-case letters become the lower-case ones; nothing else changes. */
  lemma LowerIs(s: string, i: nat)
    requires i < |s|
    ensures var c := ToLower(s)[i];
            |ToLower(s)| == |s| && !('A' <= c <= 'Z')
            && (c == s[i] || ('A' <= s[i] <= 'Z' && c as int == s[i] as int + 32))
  {
  }

  /** The hash prefix goes between the name's base and its extension. */
  lemma SuffixedPrinted(req: Request, base: string, ext: string, hash: string, k: nat)
    requires Plainly(ext) && k <= |hash|
    ensures req.name == base + "." + ext ==> Suffixed(req, hash, k).name == base + "-" + hash[..k] + "." + ext
    ensures req.name == ext ==> Suffixed(req, hash, k).name == ext + "-" + hash[..k]
  {
    ExtPrinted(base, ext);
    BasePrinted(base, ext);
    ExtNone(ext);
    assert ext + "-" + hash[..k] + "" == ext + "-" + hash[..k];
  }

  // ---- resolveTargetPath -------------------------------------------------------------

  lemma {:induction false} FirstFreeFacts(rows: seq<Row>, req: Request, hash: string, prefixLen: nat)
    ensures var r := FirstFree(rows, req, hash, prefixLen);
            && (r.Some? ==> !Taken(rows, r.value))
            && (r.Some? ==> exists k :: prefixLen <= k <= |hash| && r.value == Suffixed(req, hash, k))
            && (r.None? ==> forall k :: prefixLen <= k <= |hash| ==> Taken(rows, Suffixed(req, hash, k)))
    decreases |hash| - prefixLen
  {
    if prefixLen <= |hash| && Taken(rows, Suffixed(req, hash, prefixLen)) {
      FirstFreeFacts(rows, req, hash, prefixLen + 1);
    }
  }

  /** The resolved path is free, keeps the directory, and is not the staging file's. */
  lemma ResolveFree(s: Stores, req: Request, staging: Path, env: Env)
    requires Fresh(s, req, staging, env)
    ensures var r := Resolve(s.rows, req, env.hash(Staged(req)));
            r.Some? ==> !Taken(s.rows, r.value) && r.value != staging
                        && r.value.userId == req.userId && r.value.folder == req.folder
  {
    FirstFreeFacts(s.rows, req, env.hash(Staged(req)), MinPrefix);
  }

  /** The plain path and the suffixed ones up to a prefix length. */
  ghost function Candidates(req: Request, hash: string, n: nat): set<Path>
    requires n <= |hash|
  {
    if n < MinPrefix then {Plain(req)} else Candidates(req, hash, n - 1) + {Suffixed(req, hash, n)}
  }

  lemma {:induction false} SuffixedIsCandidate(req: Request, hash: string, k: nat, n: nat)
    requires MinPrefix <= k <= n <= |hash|
    ensures Suffixed(req, hash, k) in Candidates(req, hash, n)
  {
    if k < n { SuffixedIsCandidate(req, hash, k, n - 1); }
  }

  lemma {:induction false} PlainIsCandidate(req: Request, hash: string, n: nat)
    requires n <= |hash|
    ensures Plain(req) in Candidates(req, hash, n)
  {
    if MinPrefix <= n { PlainIsCandidate(req, hash, n - 1); }
  }

  /** The candidates: the name itself, and the name with at least five
      characters of the hash. */
  lemma {:induction false} CandidatesAre(req: Request, hash: string, n: nat, p: Path)
    requires n <= |hash|
    ensures p in Candidates(req, hash, n) <==>
              p == Plain(req) || exists k: nat :: 5 <= k <= n && p == Suffixed(req, hash, k)
  {
    if MinPrefix <= n {
      CandidatesAre(req, hash, n - 1, p);
    }
  }

  lemma {:induction false} CandidateTaken(rows: seq<Row>, req: Request, hash: string, n: nat, p: Path)
    requires n <= |hash| && p in Candidates(req, hash, n) && Taken(rows, Plain(req))
    requires forall k :: MinPrefix <= k <= |hash| ==> Taken(rows, Suffixed(req, hash, k))
    ensures Taken(rows, p) && p.userId == req.userId && p.folder == req.folder
  {
    if MinPrefix <= n && p != Suffixed(req, hash, n) { CandidateTaken(rows, req, hash, n - 1, p); }
  }

  lemma SuffixedLength(req: Request, hash: string, k: nat)
    requires k <= |hash|
    ensures |Suffixed(req, hash, k).name| == |req.name| + 1 + k
  {
  }

  lemma {:induction false} LongestCandidate(req: Request, hash: string, n: nat, p: Path)
    requires n <= |hash| && p in Candidates(req, hash, n)
    ensures |p.name| <= |req.name| + 1 + n
  {
    if n >= MinPrefix {
      if p == Suffixed(req, hash, n) { SuffixedLength(req, hash, n); } else { LongestCandidate(req, hash, n - 1, p); }
    }
  }

  /** All candidates are different: 61 of them for a 64-character hash. */
  lemma {:induction false} CandidatesDistinct(req: Request, hash: string, n: nat)
    requires MinPrefix - 1 <= n <= |hash|
    ensures |Candidates(req, hash, n)| == n - 3
  {
    if n >= MinPrefix {
      CandidatesDistinct(req, hash, n - 1);
      SuffixedLength(req, hash, n);
      if Suffixed(req, hash, n) in Candidates(req, hash, n - 1) {
        LongestCandidate(req, hash, n - 1, Suffixed(req, hash, n));
        assert false;
      }
    }
  }

  ghost function PathsIn(rows: seq<Row>, userId: int, folder: string): set<Path> {
    set i | 0 <= i < |rows| && rows[i].path.userId == userId && rows[i].path.folder == folder :: rows[i].path
  }

  /** resolveTargetPath gives up exactly when every candidate is taken. */
  lemma ResolveFails(rows: seq<Row>, req: Request, hash: string)
    ensures Resolve(rows, req, hash).None? <==> forall p :: p in Candidates(req, hash, |hash|) ==> Taken(rows, p)
  {
    FirstFreeFacts(rows, req, hash, MinPrefix);
    var r := Resolve(rows, req, hash);
    if r.None? {
      forall p | p in Candidates(req, hash, |hash|) ensures Taken(rows, p) {
        CandidateTaken(rows, req, hash, |hash|, p);
      }
    } else if r.value == Plain(req) {
      PlainIsCandidate(req, hash, |hash|);
    } else {
      var k :| MinPrefix <= k <= |hash| && r.value == Suffixed(req, hash, k);
      SuffixedIsCandidate(req, hash, k, |hash|);
    }
  }

  /** Giving up takes 61 rows in the directory, for a 64-character hash. */
  lemma ResolveFailsOnlyWhenFull(rows: seq<Row>, req: Request, hash: string)
    requires |hash| >= MinPrefix && Resolve(rows, req, hash).None?
    ensures |PathsIn(rows, req.userId, req.folder)| >= |hash| - 3
  {
    FirstFreeFacts(rows, req, hash, MinPrefix);
    CandidatesDistinct(req, hash, |hash|);
    forall p | p in Candidates(req, hash, |hash|) ensures p in PathsIn(rows, req.userId, req.folder) {
      CandidateTaken(rows, req, hash, |hash|, p);
      var i :| 0 <= i < |rows| && rows[i].path == p;
    }
    SubsetSize(Candidates(req, hash, |hash|), PathsIn(rows, req.userId, req.folder));
  }

  // ---- Totals ------------------------------------------------------------------------

  lemma {:induction false} TotalAppend(rows: seq<Row>, row: Row, u: int)
    ensures Total(rows + [row], u) == Total(rows, u) + if row.userId == u then row.size else 0
  {
    if rows == [] {
      assert rows + [row] == [row];
    } else {
      TotalAppend(rows[1..], row, u);
      assert (rows + [row])[1..] == rows[1..] + [row];
    }
  }

  lemma {:induction false} TotalRemove(rows: seq<Row>, i: nat, u: int)
    requires i < |rows|
    ensures Total(rows[..i] + rows[i + 1..], u) == Total(rows, u) - if rows[i].userId == u then rows[i].size else 0
  {
    var rest := rows[..i] + rows[i + 1..];
    if i == 0 {
      assert rest == rows[1..];
    } else {
      TotalRemove(rows[1..], i - 1, u);
      assert rest[1..] == rows[1..][..i - 1] + rows[1..][i..];
    }
  }

  // ---- store ---------------------------------------------------------------------------

  /** The two ways to leave a file without a row: the stream fails before the
      limit cuts it, or the insert fails after the move. */
  predicate Leaks(s: Stores, req: Request, fault: Fault, env: Env) {
    ReadBreaks(req) || (fault == InsertRow && Decide(s.rows, req, fault, env).Keep?)
  }

  lemma FileWithoutRow(s: Stores, s': Stores, p: Path, env: Env)
    requires Agree(s, env) && p !in s.disk && s'.rows == s.rows && p in s'.disk
    ensures !Agree(s', env)
  {
  }

  lemma FreePathOffDisk(s: Stores, p: Path, env: Env)
    requires Agree(s, env) && !Taken(s.rows, p)
    ensures p !in s.disk
  {
  }

  lemma AddFile(s: Stores, path: Path, bytes: seq<byte>, u: int, verified: bool, jobs: seq<(int, Path)>, env: Env)
    requires Agree(s, env) && !Taken(s.rows, path) && path.userId == u
    requires FindByHash(s.rows, env.hash(bytes), u).None?
    ensures Agree(Stores(s.disk[path := bytes], s.rows + [Row(s.nextId, path, |bytes|, env.hash(bytes), u, verified)],
                         s.nextId + 1, jobs), env)
  {
    var row := Row(s.nextId, path, |bytes|, env.hash(bytes), u, verified);
    var s' := Stores(s.disk[path := bytes], s.rows + [row], s.nextId + 1, jobs);
    forall i | 0 <= i < |s'.rows| ensures Describes(s', s'.rows[i], env) {
      if i < |s.rows| {
        assert Describes(s, s.rows[i], env) && s.rows[i].path != path;
      }
    }
    forall i, j | 0 <= i < j < |s'.rows| ensures Distinct(s'.rows[i], s'.rows[j]) {
      if j == |s.rows| {
        assert Describes(s, s.rows[i], env);
      } else {
        assert Distinct(s.rows[i], s.rows[j]);
      }
    }
    forall p | p in s'.disk ensures Taken(s'.rows, p) {
      if p == path {
        assert s'.rows[|s.rows|].path == p;
      } else {
        var i :| 0 <= i < |s.rows| && s.rows[i].path == p;
        assert s'.rows[i].path == p;
      }
    }
  }

  /** What a decision to insert rests on. */
  lemma KeepDecided(rows: seq<Row>, req: Request, fault: Fault, env: Env, path: Path)
    requires Decide(rows, req, fault, env) == Keep(path)
    ensures Resolve(rows, req, env.hash(Staged(req))) == Some(path)
    ensures FindByHash(rows, env.hash(Staged(req)), req.userId).None?
    ensures |Staged(req)| <= req.maxSong && Total(rows, req.userId) + |Staged(req)| <= req.maxTotal
  {
  }

  lemma KeepFacts(s: Stores, req: Request, staging: Path, fault: Fault, env: Env, path: Path)
    requires Fresh(s, req, staging, env) && Decide(s.rows, req, fault, env) == Keep(path)
    ensures !Taken(s.rows, path) && path != staging && path.userId == req.userId && path.folder == req.folder
    ensures FindByHash(s.rows, env.hash(Staged(req)), req.userId).None?
    ensures |Staged(req)| <= req.maxSong && Total(s.rows, req.userId) + |Staged(req)| <= req.maxTotal
  {
    KeepDecided(s.rows, req, fault, env, path);
    ResolveFree(s, req, staging, env);
  }

  lemma TakeBackDecided(rows: seq<Row>, req: Request, fault: Fault, env: Env)
    requires Decide(rows, req, fault, env).TakeBack?
    ensures Resolve(rows, req, env.hash(Staged(req))) == Some(Decide(rows, req, fault, env).path)
  {
  }

  lemma PutAndRemoved(disk: map<Path, seq<byte>>, path: Path, bytes: seq<byte>, staging: Path)
    requires path !in disk && staging !in disk
    ensures disk[path := bytes] - {staging} - {path} == disk
  {
  }

  lemma ReuseFacts(s: Stores, req: Request, fault: Fault, env: Env, row: Row)
    requires Decide(s.rows, req, fault, env) == Reuse(row)
    ensures row in s.rows && row.hash == env.hash(Staged(req)) && row.userId == req.userId
            && |Staged(req)| <= req.maxSong
  {
  }

  lemma SaveKeeps(s: Stores, req: Request, staging: Path, fault: Fault, env: Env, path: Path)
    requires !ReadBreaks(req) && Decide(s.rows, req, fault, env) == Keep(path) && path != staging && staging !in s.disk
    ensures var (s', r) := Save(s, req, staging, fault, env);
            && s'.disk == s.disk[path := Staged(req)]
            && (fault == InsertRow ==> s'.rows == s.rows && r.Refused?)
            && (fault != InsertRow ==>
                  s' == Stores(s.disk[path := Staged(req)],
                               s.rows + [Row(s.nextId, path, |Staged(req)|, env.hash(Staged(req)),
                                             req.userId, IsCover(req.name))],
                               s.nextId + 1, s'.parseJobs)
                  && r == Stored(s.nextId, path))
  {
    assert s.disk[path := Staged(req)] - {staging} == s.disk[path := Staged(req)];
    SettleRows(s, req, staging, fault, env, Keep(path));
    SettleDisk(s, req, staging, fault, env, path);
  }

  lemma SettleDisk(s: Stores, req: Request, staging: Path, fault: Fault, env: Env, path: Path)
    ensures Settle(s, req, staging, fault, env, Keep(path)).0.disk == s.disk[path := Staged(req)] - {staging}
  {
  }

  lemma SaveDrops(s: Stores, req: Request, staging: Path, fault: Fault, env: Env)
    requires Agree(s, env) && Fresh(s, req, staging, env)
    requires !ReadBreaks(req) && !Decide(s.rows, req, fault, env).Keep?
    ensures Save(s, req, staging, fault, env).0 == s
  {
    var decision := Decide(s.rows, req, fault, env);
    if decision.TakeBack? {
      TakeBackDecided(s.rows, req, fault, env);
      ResolveFree(s, req, staging, env);
      FreePathOffDisk(s, decision.path, env);
    }
    SettleDrops(s, req, staging, fault, env, decision);
  }

  lemma SettleDrops(s: Stores, req: Request, staging: Path, fault: Fault, env: Env, d: Decision)
    requires staging !in s.disk && !d.Keep? && (d.TakeBack? ==> d.path !in s.disk)
    ensures Settle(s, req, staging, fault, env, d).0 == s
  {
    assert s.disk - {staging} == s.disk;
    if d.TakeBack? { PutAndRemoved(s.disk, d.path, Staged(req), staging); }
  }

  /** An upload keeps disk and rows in agreement exactly when it leaks no file. */
  lemma SaveAgrees(s: Stores, req: Request, staging: Path, fault: Fault, env: Env)
    requires Agree(s, env) && Fresh(s, req, staging, env)
    ensures Agree(Save(s, req, staging, fault, env).0, env) <==> !Leaks(s, req, fault, env)
  {
    if ReadBreaks(req) {
      FileWithoutRow(s, Save(s, req, staging, fault, env).0, staging, env);
    } else if Decide(s.rows, req, fault, env).Keep? {
      KeepAgrees(s, req, staging, fault, env, Decide(s.rows, req, fault, env).path);
    } else {
      SaveDrops(s, req, staging, fault, env);
    }
  }

  lemma KeepAgrees(s: Stores, req: Request, staging: Path, fault: Fault, env: Env, path: Path)
    requires Agree(s, env) && Fresh(s, req, staging, env)
    requires !ReadBreaks(req) && Decide(s.rows, req, fault, env) == Keep(path)
    ensures Agree(Save(s, req, staging, fault, env).0, env) <==> fault != InsertRow
  {
    KeepFacts(s, req, staging, fault, env, path);
    SaveKeeps(s, req, staging, fault, env, path);
    FreePathOffDisk(s, path, env);
    var s' := Save(s, req, staging, fault, env).0;
    if fault == InsertRow {
      FileWithoutRow(s, s', path, env);
    } else {
      AddFile(s, path, Staged(req), req.userId, IsCover(req.name), s'.parseJobs, env);
    }
  }

  predicate HasRow(rows: seq<Row>, id: int, path: Path, userId: int) {
    exists i :: 0 <= i < |rows| && rows[i].id == id && rows[i].path == path && rows[i].userId == userId
  }

  predicate Landed(s: Stores, s': Stores, r: Outcome, req: Request) {
    && !req.breaksOff && |req.content| <= req.maxSong
    && r.Stored? && r.path in s'.disk && s'.disk[r.path] == req.content
    && HasRow(s'.rows, r.id, r.path, req.userId)
  }

  predicate KeepsFiles(disk: map<Path, seq<byte>>, disk': map<Path, seq<byte>>) {
    forall p :: p in disk ==> p in disk' && disk'[p] == disk[p]
  }

  /** An accepted upload is complete and within the limit, and its path holds
      exactly its bytes, under a row of the user; no other file changed. */
  lemma SaveStores(s: Stores, req: Request, staging: Path, fault: Fault, env: Env)
    requires Agree(s, env) && Fresh(s, req, staging, env) && Injective(env.hash)
    ensures var (s', r) := Save(s, req, staging, fault, env);
            KeepsFiles(s.disk, s'.disk) && (r.Stored? ==> Landed(s, s', r, req))
  {
    var decision := Decide(s.rows, req, fault, env);
    if ReadBreaks(req) {
    } else if decision.Keep? {
      KeepFacts(s, req, staging, fault, env, decision.path);
      FreePathOffDisk(s, decision.path, env);
      KeepStores(s, req, staging, fault, env, decision.path);
    } else {
      SaveDrops(s, req, staging, fault, env);
      if decision.Reuse? { ReuseStores(s, req, fault, env, decision.row); }
    }
  }

  lemma StagedWithin(req: Request)
    requires |Staged(req)| <= req.maxSong
    ensures Staged(req) == req.content
  {
  }

  /** A path that was free took the bytes, and perhaps a row was added for it. */
  lemma NewFileLands(s: Stores, s': Stores, r: Outcome, req: Request, path: Path)
    requires path !in s.disk && s'.disk == s.disk[path := req.content] && !req.breaksOff && |req.content| <= req.maxSong
    requires r.Stored? ==> r.path == path && HasRow(s'.rows, r.id, path, req.userId)
    ensures KeepsFiles(s.disk, s'.disk) && (r.Stored? ==> Landed(s, s', r, req))
  {
  }

  lemma LastRow(rows: seq<Row>, row: Row)
    ensures HasRow(rows + [row], row.id, row.path, row.userId)
  {
    assert (rows + [row])[|rows|] == row;
  }

  lemma KeepStores(s: Stores, req: Request, staging: Path, fault: Fault, env: Env, path: Path)
    requires path !in s.disk && path != staging && staging !in s.disk && |Staged(req)| <= req.maxSong
    requires !ReadBreaks(req) && Decide(s.rows, req, fault, env) == Keep(path)
    ensures var (s', r) := Save(s, req, staging, fault, env);
            KeepsFiles(s.disk, s'.disk) && (r.Stored? ==> Landed(s, s', r, req))
  {
    SaveKeeps(s, req, staging, fault, env, path);
    StagedWithin(req);
    var (s', r) := Save(s, req, staging, fault, env);
    if fault != InsertRow {
      LastRow(s.rows, Row(s.nextId, path, |Staged(req)|, env.hash(Staged(req)), req.userId, IsCover(req.name)));
    }
    NewFileLands(s, s', r, req, path);
  }

  lemma ReuseStores(s: Stores, req: Request, fault: Fault, env: Env, row: Row)
    requires Agree(s, env) && Injective(env.hash) && Decide(s.rows, req, fault, env) == Reuse(row)
    ensures |req.content| <= req.maxSong && row.path in s.disk && s.disk[row.path] == req.content
    ensures HasRow(s.rows, row.id, row.path, req.userId)
  {
  }

  // ---- When an upload is accepted ------------------------------------------------------

  /** The stream ended within the limit, and a cover is an image. */
  predicate Sound(req: Request, env: Env) {
    && !req.breaksOff && |req.content| <= req.maxSong
    && (IsCover(req.name) ==> env.validImage(ToLower(Ext(req.name)), req.content))
  }

  /** The user has a row of this content already. */
  predicate Known(rows: seq<Row>, req: Request, env: Env) {
    exists i :: 0 <= i < |rows| && rows[i].hash == env.hash(req.content) && rows[i].userId == req.userId
  }

  /** Some name for the content is not taken. */
  ghost predicate Placeable(rows: seq<Row>, req: Request, env: Env) {
    var hash := env.hash(req.content);
    exists p :: p in Candidates(req, hash, |hash|) && !Taken(rows, p)
  }

  predicate HasRoom(rows: seq<Row>, req: Request) {
    Total(rows, req.userId) + |req.content| <= req.maxTotal
  }

  /** The run gets as far as the storage call that fails. */
  ghost predicate Reached(rows: seq<Row>, req: Request, fault: Fault, env: Env) {
    && Sound(req, env)
    && match fault
       case NoFault => false
       case HashLookup => true
       case PathProbe => !Known(rows, req, env)
       case TotalLookup => !Known(rows, req, env) && Placeable(rows, req, env)
       case InsertRow => !Known(rows, req, env) && Placeable(rows, req, env) && HasRoom(rows, req)
  }

  /** Each answer, exactly when it is due. */
  ghost predicate OutcomeDue(rows: seq<Row>, req: Request, fault: Fault, env: Env, r: Outcome) {
    var known, placeable := Known(rows, req, env), Placeable(rows, req, env);
    var ok := Sound(req, env) && !Reached(rows, req, fault, env);
    && (r.Stored? <==> ok && (known || (placeable && HasRoom(rows, req))))
    && (r == Refused(ReadFailed) <==> req.breaksOff && |req.content| <= req.maxSong)
    && (r == Refused(SongTooLarge) <==> |req.content| > req.maxSong)
    && (r == Refused(NotAnImage) <==> |req.content| <= req.maxSong && !req.breaksOff && !Sound(req, env))
    && (r == Refused(PathsExhausted) <==> ok && !known && !placeable)
    && (r == Refused(TotalTooLarge) <==> ok && !known && placeable && !HasRoom(rows, req))
    && (r == Refused(StorageFailed) <==> Reached(rows, req, fault, env))
  }

  lemma SaveOutcome(s: Stores, req: Request, staging: Path, fault: Fault, env: Env)
    ensures OutcomeDue(s.rows, req, fault, env, Save(s, req, staging, fault, env).1)
  {
    if Sound(req, env) {
      KnownIff(s.rows, req, env);
      PlaceableIff(s.rows, req, env);
      SoundOutcome(s, req, staging, fault, env);
    } else {
      UnsoundOutcome(s, req, staging, fault, env);
    }
  }

  lemma UnsoundOutcome(s: Stores, req: Request, staging: Path, fault: Fault, env: Env)
    requires !Sound(req, env)
    ensures Save(s, req, staging, fault, env).1 == Refused(
              if |req.content| > req.maxSong then SongTooLarge else if req.breaksOff then ReadFailed else NotAnImage)
  {
    if |req.content| <= req.maxSong && !req.breaksOff { StagedWithin(req); }
  }

  lemma SoundOutcome(s: Stores, req: Request, staging: Path, fault: Fault, env: Env)
    requires Sound(req, env)
    ensures var r := Save(s, req, staging, fault, env).1;
            var found := FindByHash(s.rows, env.hash(req.content), req.userId);
            if fault == HashLookup then r == Refused(StorageFailed)
            else if found.Some? then r == Stored(found.value.id, found.value.path)
            else Placed(s, req, fault, Resolve(s.rows, req, env.hash(req.content)), r)
  {
    StagedWithin(req);
  }

  predicate Placed(s: Stores, req: Request, fault: Fault, path: Option<Path>, r: Outcome) {
    if fault == PathProbe then r == Refused(StorageFailed)
    else if path.None? then r == Refused(PathsExhausted)
    else if fault == TotalLookup then r == Refused(StorageFailed)
    else if !HasRoom(s.rows, req) then r == Refused(TotalTooLarge)
    else if fault == InsertRow then r == Refused(StorageFailed)
    else r == Stored(s.nextId, path.value)
  }

  lemma KnownIff(rows: seq<Row>, req: Request, env: Env)
    ensures Known(rows, req, env) <==> FindByHash(rows, env.hash(req.content), req.userId).Some?
  {
  }

  lemma PlaceableIff(rows: seq<Row>, req: Request, env: Env)
    ensures Placeable(rows, req, env) <==> Resolve(rows, req, env.hash(req.content)).Some?
  {
    ResolveFails(rows, req, env.hash(req.content));
  }

  /** The new row and what it is enqueued for; a duplicate changes neither. */
  predicate RowsAfter(s: Stores, s': Stores, r: Outcome, req: Request, env: Env) {
    if r.Refused? then s'.rows == s.rows && s'.nextId == s.nextId && s'.parseJobs == s.parseJobs
    else if Known(s.rows, req, env) then
      && s'.rows == s.rows && s'.nextId == s.nextId && s'.parseJobs == s.parseJobs
      && exists i :: 0 <= i < |s.rows| && s.rows[i].id == r.id && s.rows[i].path == r.path
           && s.rows[i].hash == env.hash(req.content) && s.rows[i].userId == req.userId
    else
      && r.id == s.nextId && s'.nextId == s.nextId + 1
      && s'.rows == s.rows + [Row(r.id, r.path, |req.content|, env.hash(req.content), req.userId, IsCover(req.name))]
      && s'.parseJobs == s.parseJobs + if IsCover(req.name) then [] else [(r.id, r.path)]
  }

  lemma SettleRows(s: Stores, req: Request, staging: Path, fault: Fault, env: Env, d: Decision)
    ensures var (s', r) := Settle(s, req, staging, fault, env, d);
            if d.Keep? && fault != InsertRow then
              && r == Stored(s.nextId, d.path) && s'.nextId == s.nextId + 1
              && s'.rows == s.rows + [Row(s.nextId, d.path, |Staged(req)|, env.hash(Staged(req)), req.userId,
                                          IsCover(req.name))]
              && s'.parseJobs == s.parseJobs + if IsCover(req.name) then [] else [(s.nextId, d.path)]
            else
              && s'.rows == s.rows && s'.nextId == s.nextId && s'.parseJobs == s.parseJobs
              && (if d.Reuse? then r == Stored(d.row.id, d.row.path) else r.Refused?)
  {
  }

  /** What a decision to keep or to reuse says about the user's rows. */
  lemma DecidedOn(rows: seq<Row>, req: Request, fault: Fault, env: Env)
    ensures var d, found := Decide(rows, req, fault, env), FindByHash(rows, env.hash(req.content), req.userId);
            && (d.Keep? ==> Staged(req) == req.content && found.None?)
            && (d.Reuse? ==> Staged(req) == req.content && found == Some(d.row))
  {
    if |Staged(req)| <= req.maxSong { StagedWithin(req); }
  }

  lemma SaveRows(s: Stores, req: Request, staging: Path, fault: Fault, env: Env)
    ensures var (s', r) := Save(s, req, staging, fault, env);
            RowsAfter(s, s', r, req, env)
  {
    if !ReadBreaks(req) {
      var d := Decide(s.rows, req, fault, env);
      SettleRows(s, req, staging, fault, env, d);
      DecidedOn(s.rows, req, fault, env);
      KnownIff(s.rows, req, env);
      if d.Reuse? {
        var i :| 0 <= i < |s.rows| && s.rows[i] == d.row;
      }
    }
  }

  /** The shortest free name: the plain one if it is free. */
  ghost predicate BestName(rows: seq<Row>, req: Request, env: Env, path: Path) {
    var hash := env.hash(req.content);
    && path in Candidates(req, hash, |hash|) && !Taken(rows, path)
    && forall q :: q in Candidates(req, hash, |hash|) && !Taken(rows, q) ==> |path.name| <= |q.name|
  }

  lemma {:induction false} FirstFreeShortest(rows: seq<Row>, req: Request, hash: string, from: nat, n: nat, q: Path)
    requires MinPrefix <= from <= |hash| + 1 && n <= |hash|
    requires q in Candidates(req, hash, n) && q != Plain(req) && !Taken(rows, q)
    requires forall k :: MinPrefix <= k < from && k <= |hash| ==> Taken(rows, Suffixed(req, hash, k))
    ensures FirstFree(rows, req, hash, from).Some? && |FirstFree(rows, req, hash, from).value.name| <= |q.name|
    decreases |hash| + 1 - from + n
  {
    if q != Suffixed(req, hash, n) {
      FirstFreeShortest(rows, req, hash, from, n - 1, q);
    } else if from <= |hash| {
      SuffixedLength(req, hash, n);
      SuffixedLength(req, hash, from);
      if Taken(rows, Suffixed(req, hash, from)) {
        FirstFreeShortest(rows, req, hash, from + 1, n, q);
      }
    }
  }

  lemma ResolveBest(rows: seq<Row>, req: Request, env: Env)
    requires Resolve(rows, req, env.hash(req.content)).Some?
    ensures BestName(rows, req, env, Resolve(rows, req, env.hash(req.content)).value)
  {
    var hash := env.hash(req.content);
    var path := Resolve(rows, req, hash).value;
    FirstFreeFacts(rows, req, hash, MinPrefix);
    PlainIsCandidate(req, hash, |hash|);
    if path != Plain(req) {
      var k :| MinPrefix <= k <= |hash| && path == Suffixed(req, hash, k);
      SuffixedIsCandidate(req, hash, k, |hash|);
    }
    forall q | q in Candidates(req, hash, |hash|) && !Taken(rows, q) ensures |path.name| <= |q.name| {
      if q != Plain(req) {
        FirstFreeShortest(rows, req, hash, MinPrefix, |hash|, q);
      }
    }
  }

  lemma SaveName(s: Stores, req: Request, staging: Path, fault: Fault, env: Env)
    ensures var r := Save(s, req, staging, fault, env).1;
            r.Stored? && !Known(s.rows, req, env) ==> BestName(s.rows, req, env, r.path)
  {
    SaveOutcome(s, req, staging, fault, env);
    KnownIff(s.rows, req, env);
    if Sound(req, env) && Placeable(s.rows, req, env) {
      PlaceableIff(s.rows, req, env);
      ResolveBest(s.rows, req, env);
    }
  }

  /** A refused upload that leaks nothing, and a duplicate, leave no trace. */
  lemma RefusedLeavesNothing(s: Stores, req: Request, staging: Path, fault: Fault, env: Env)
    requires Agree(s, env) && Fresh(s, req, staging, env) && !Leaks(s, req, fault, env)
    ensures var (s', r) := Save(s, req, staging, fault, env);
            (r.Refused? || Decide(s.rows, req, fault, env).Reuse?) ==> s' == s
  {
    if !Decide(s.rows, req, fault, env).Keep? {
      SaveDrops(s, req, staging, fault, env);
    }
  }

  lemma {:induction false} FindByHashUnique(rows: seq<Row>, row: Row, hash: string, u: int)
    requires row in rows && row.hash == hash && row.userId == u
    requires forall i, j :: 0 <= i < j < |rows| ==> Distinct(rows[i], rows[j])
    ensures FindByHash(rows, hash, u) == Some(row)
  {
  }

  /** The row behind an accepted upload. */
  lemma StoredRow(s: Stores, req: Request, staging: Path, env: Env) returns (row: Row)
    requires Agree(s, env) && Fresh(s, req, staging, env) && Save(s, req, staging, NoFault, env).1.Stored?
    ensures var (s1, r1) := Save(s, req, staging, NoFault, env);
            row in s1.rows && row.hash == env.hash(req.content) && row.userId == req.userId
                && r1 == Stored(row.id, row.path)
  {
    var decision := Decide(s.rows, req, NoFault, env);
    var s1 := Save(s, req, staging, NoFault, env).0;
    if decision.Reuse? {
      row := decision.row;
      SaveDrops(s, req, staging, NoFault, env);
      ReuseFacts(s, req, NoFault, env, row);
    } else {
      KeepFacts(s, req, staging, NoFault, env, decision.path);
      SaveKeeps(s, req, staging, NoFault, env, decision.path);
      row := s1.rows[|s.rows|];
    }
    StagedWithin(req);
  }

  /** Content the user already has is not stored again, whatever its name. */
  lemma KnownContentReused(s: Stores, req: Request, staging: Path, env: Env, row: Row)
    requires Agree(s, env) && Fresh(s, req, staging, env)
    requires row in s.rows && row.hash == env.hash(req.content) && row.userId == req.userId
    requires |req.content| <= req.maxSong && !req.breaksOff && !ImageRejected(req, env)
    ensures Save(s, req, staging, NoFault, env) == (s, Stored(row.id, row.path))
  {
    FindByHashUnique(s.rows, row, row.hash, row.userId);
    SaveDrops(s, req, staging, NoFault, env);
  }

  /** A second upload of the same content gives the first one's id and path
      and changes nothing. */
  lemma SecondUploadReused(s: Stores, req: Request, staging: Path, again: Request, staging2: Path, env: Env)
    requires Agree(s, env) && Fresh(s, req, staging, env) && Save(s, req, staging, NoFault, env).1.Stored?
    requires again.content == req.content && again.userId == req.userId && again.maxSong >= |again.content|
             && !again.breaksOff
    requires !ImageRejected(again, env)
    requires Fresh(Save(s, req, staging, NoFault, env).0, again, staging2, env)
    ensures var (s1, r1) := Save(s, req, staging, NoFault, env);
            Save(s1, again, staging2, NoFault, env) == (s1, r1)
  {
    var row := StoredRow(s, req, staging, env);
    SaveAgrees(s, req, staging, NoFault, env);
    KnownContentReused(Save(s, req, staging, NoFault, env).0, again, staging2, env, row);
  }

  /** An upload adds its size to its user's total, at most up to the cap. */
  lemma SaveTotals(s: Stores, req: Request, staging: Path, fault: Fault, env: Env, u: int)
    ensures var s' := Save(s, req, staging, fault, env).0;
            Total(s'.rows, u) == Total(s.rows, u)
                || (u == req.userId && Total(s'.rows, u) == Total(s.rows, u) + |req.content| <= req.maxTotal)
  {
    var (s', r) := Save(s, req, staging, fault, env);
    SaveRows(s, req, staging, fault, env);
    SaveOutcome(s, req, staging, fault, env);
    if r.Stored? && !Known(s.rows, req, env) {
      AddedTotal(s, s', r, req, env, u);
    }
  }

  lemma AddedTotal(s: Stores, s': Stores, r: Outcome, req: Request, env: Env, u: int)
    requires RowsAfter(s, s', r, req, env) && r.Stored? && !Known(s.rows, req, env)
    ensures Total(s'.rows, u) == Total(s.rows, u) + if u == req.userId then |req.content| else 0
  {
    TotalAppend(s.rows, Row(r.id, r.path, |req.content|, env.hash(req.content), req.userId, IsCover(req.name)), u);
  }

  // ---- deleteUploadedFile -----------------------------------------------------------------

  /** The user's own file of that id. */
  predicate Owns(rows: seq<Row>, u: int, id: int) {
    exists i :: 0 <= i < |rows| && rows[i].id == id && rows[i].userId == u
  }

  predicate IsFileOf(rows: seq<Row>, id: int, p: Path) {
    exists i :: 0 <= i < |rows| && rows[i].id == id && rows[i].path == p
  }

  /** Deleting keeps the agreement; it succeeds exactly on the user's own
      unattached file, and takes away just that file. */
  lemma DeleteAgrees(s: Stores, u: int, id: int, attached: bool, env: Env)
    requires Agree(s, env)
    ensures var (s', r) := Delete(s, u, id, attached);
            && Agree(s', env)
            && (r.Some? ==> s' == s)
            && (r.None? <==> !attached && Owns(s.rows, u, id))
            && (r.None? ==> s'.disk == map p | p in s.disk && !IsFileOf(s.rows, id, p) :: s.disk[p])
  {
    var (s', r) := Delete(s, u, id, attached);
    var found := Find(s.rows, id);
    if found.Some? {
      forall k | 0 <= k < |s.rows| && s.rows[k].id == id ensures k == found.value {
        assert k < found.value ==> Distinct(s.rows[k], s.rows[found.value]);
        assert found.value < k ==> Distinct(s.rows[found.value], s.rows[k]);
      }
    }
    if r.None? {
      RemoveRow(s, found.value, env);
      assert s' == Without(s, found.value);
    }
  }

  ghost function Without(s: Stores, i: nat): Stores
    requires i < |s.rows|
  {
    s.(rows := s.rows[..i] + s.rows[i + 1..], disk := s.disk - {s.rows[i].path})
  }

  lemma RemainingDescribed(s: Stores, i: nat, k: nat, env: Env)
    requires Agree(s, env) && i < |s.rows| && k < |s.rows| - 1
    ensures Describes(Without(s, i), Without(s, i).rows[k], env)
  {
  }

  lemma RemainingTaken(s: Stores, i: nat, p: Path)
    requires i < |s.rows| && Taken(s.rows, p) && p != s.rows[i].path
    ensures Taken(Without(s, i).rows, p)
  {
    var o :| 0 <= o < |s.rows| && s.rows[o].path == p;
    if o < i {
      assert Without(s, i).rows[o] == s.rows[o];
    } else {
      assert Without(s, i).rows[o - 1] == s.rows[o];
    }
  }

  lemma RemoveRow(s: Stores, i: nat, env: Env)
    requires Agree(s, env) && i < |s.rows|
    ensures Agree(Without(s, i), env)
  {
    var s' := Without(s, i);
    forall k | 0 <= k < |s'.rows| ensures Describes(s', s'.rows[k], env) {
      RemainingDescribed(s, i, k, env);
    }
    forall k, l | 0 <= k < l < |s'.rows| ensures Distinct(s'.rows[k], s'.rows[l]) {
      assert Distinct(s.rows[if k < i then k else k + 1], s.rows[if l < i then l else l + 1]);
    }
    forall p | p in s'.disk ensures Taken(s'.rows, p) {
      assert p in s.disk;
      RemainingTaken(s, i, p);
    }
  }

  /** Deleting the last row's file takes away that row and that file. */
  lemma DeleteLast(s: Stores, env: Env)
    requires Agree(s, env) && s.rows != []
    ensures var last := s.rows[|s.rows| - 1];
            Delete(s, last.userId, last.id, false)
                == (s.(rows := s.rows[..|s.rows| - 1], disk := s.disk - {last.path}), None)
  {
    var n := |s.rows| - 1;
    var i := Find(s.rows, s.rows[n].id).value;
    assert i < n ==> Distinct(s.rows[i], s.rows[n]);
    assert s.rows[..n] + s.rows[n + 1..] == s.rows[..n];
  }

  lemma DeleteUndoesAdd(s: Stores, s1: Stores, row: Row, bytes: seq<byte>, env: Env)
    requires Agree(s1, env) && row.path !in s.disk
    requires s1.disk == s.disk[row.path := bytes] && s1.rows == s.rows + [row]
    ensures var (s2, r2) := Delete(s1, row.userId, row.id, false);
            r2.None? && s2.disk == s.disk && s2.rows == s.rows
  {
    DeleteLast(s1, env);
    assert s1.rows[..|s.rows|] == s.rows && s1.disk - {row.path} == s.disk;
  }

  /** Deleting what an upload just created undoes it. */
  lemma DeleteUndoesSave(s: Stores, req: Request, staging: Path, env: Env, path: Path)
    requires Agree(s, env) && Fresh(s, req, staging, env) && !ReadBreaks(req)
    requires Decide(s.rows, req, NoFault, env) == Keep(path)
    ensures var (s1, r1) := Save(s, req, staging, NoFault, env);
            var (s2, r2) := Delete(s1, req.userId, s.nextId, false);
            r1 == Stored(s.nextId, path) && r2.None? && s2.disk == s.disk && s2.rows == s.rows
  {
    KeepFacts(s, req, staging, NoFault, env, path);
    SaveKeeps(s, req, staging, NoFault, env, path);
    FreePathOffDisk(s, path, env);
    KeepAgrees(s, req, staging, NoFault, env, path);
    var s1 := Save(s, req, staging, NoFault, env).0;
    DeleteUndoesAdd(s, s1, s1.rows[|s.rows|], Staged(req), env);
  }

  // ---- Histories ------------------------------------------------------------------------------

  datatype Op =
    | SaveOp(req: Request, staging: Path, fault: Fault)
    | DeleteOp(userId: int, id: int, attached: bool)

  function Do(s: Stores, op: Op, env: Env): Stores {
    match op
    case SaveOp(req, staging, fault) => Save(s, req, staging, fault, env).0
    case DeleteOp(u, id, attached) => Delete(s, u, id, attached).0
  }

  ghost predicate Run(states: seq<Stores>, ops: seq<Op>, env: Env) {
    && |states| == |ops| + 1
    && forall n :: 0 <= n < |ops| ==> Step(states[n], ops[n], states[n + 1], env)
  }

  /** One operation, with a staging name that is fresh. */
  ghost predicate Step(s: Stores, op: Op, s': Stores, env: Env) {
    s' == Do(s, op, env) && (op.SaveOp? ==> Fresh(s, op.req, op.staging, env))
  }

  predicate OpLeaks(s: Stores, op: Op, env: Env) {
    op.SaveOp? && Leaks(s, op.req, op.fault, env)
  }

  lemma OpAgrees(s: Stores, op: Op, s': Stores, env: Env)
    requires Agree(s, env) && Step(s, op, s', env)
    ensures Agree(s', env) <==> !OpLeaks(s, op, env)
  {
    match op
    case SaveOp(req, staging, fault) => SaveAgrees(s, req, staging, fault, env);
    case DeleteOp(u, id, attached) => DeleteAgrees(s, u, id, attached, env);
  }

  lemma {:induction false} TightRunAgrees(states: seq<Stores>, ops: seq<Op>, n: nat, env: Env)
    requires Run(states, ops, env) && Agree(states[0], env) && n <= |ops|
    requires forall k :: 0 <= k < n ==> !OpLeaks(states[k], ops[k], env)
    ensures Agree(states[n], env)
  {
    if n > 0 {
      TightRunAgrees(states, ops, n - 1, env);
      OpAgrees(states[n - 1], ops[n - 1], states[n - 1 + 1], env);
    }
  }

  ghost predicate AlwaysAgrees(states: seq<Stores>, env: Env) {
    forall n :: 0 <= n < |states| ==> Agree(states[n], env)
  }

  ghost predicate NeverLeaks(states: seq<Stores>, ops: seq<Op>, env: Env)
    requires |states| == |ops| + 1
  {
    forall n :: 0 <= n < |ops| ==> !OpLeaks(states[n], ops[n], env)
  }

  lemma TightOnlyIfAgrees(states: seq<Stores>, ops: seq<Op>, n: nat, env: Env)
    requires Run(states, ops, env) && AlwaysAgrees(states, env) && n < |ops|
    ensures !OpLeaks(states[n], ops[n], env)
  {
    OpAgrees(states[n], ops[n], states[n + 1], env);
  }

  /** In every history, disk and rows agree all the time exactly when no
      operation leaked a file. */
  lemma RunAgrees(states: seq<Stores>, ops: seq<Op>, env: Env)
    requires Run(states, ops, env) && Agree(states[0], env)
    ensures AlwaysAgrees(states, env) <==> NeverLeaks(states, ops, env)
  {
    if NeverLeaks(states, ops, env) {
      forall n | 0 <= n < |states| ensures Agree(states[n], env) {
        TightRunAgrees(states, ops, n, env);
      }
    } else if AlwaysAgrees(states, env) {
      forall n | 0 <= n < |ops| ensures !OpLeaks(states[n], ops[n], env) {
        TightOnlyIfAgrees(states, ops, n, env);
      }
    }
  }

  /** Every row's size is at least zero: true of lengths, and kept. */
  predicate Sized(rows: seq<Row>) {
    forall i :: 0 <= i < |rows| ==> rows[i].size >= 0
  }

  lemma OpTotals(s: Stores, op: Op, env: Env, u: int, cap: int)
    requires Sized(s.rows) && Total(s.rows, u) <= cap
    requires op.SaveOp? && op.req.userId == u ==> op.req.maxTotal <= cap
    ensures Sized(Do(s, op, env).rows) && Total(Do(s, op, env).rows, u) <= cap
  {
    match op
    case SaveOp(req, staging, fault) => SaveTotals(s, req, staging, fault, env, u);
    case DeleteOp(user, id, attached) =>
      if Find(s.rows, id).Some? { TotalRemove(s.rows, Find(s.rows, id).value, u); }
  }

  /** Whatever fails, no user's total ever exceeds the cap of its uploads. */
  lemma {:induction false} RunTotals(states: seq<Stores>, ops: seq<Op>, n: nat, env: Env, u: int, cap: int)
    requires Run(states, ops, env) && n <= |ops| && Sized(states[0].rows) && Total(states[0].rows, u) <= cap
    requires forall k :: 0 <= k < |ops| && ops[k].SaveOp? && ops[k].req.userId == u ==> ops[k].req.maxTotal <= cap
    ensures Sized(states[n].rows) && Total(states[n].rows, u) <= cap
  {
    if n > 0 {
      RunTotals(states, ops, n - 1, env, u, cap);
      OpTotals(states[n - 1], ops[n - 1], env, u, cap);
      assert Step(states[n - 1], ops[n - 1], states[n - 1 + 1], env);
    }
  }
}
