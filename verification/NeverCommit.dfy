/**
 * Staging a commit while dropping changes to the repository's never-commit paths, except those the
 * sub-task is contracted to generate.
 */
module NeverCommit {
  import opened Prelude

  const CHUNK := 200

  /** A trailing slash makes an authorised path a directory prefix; anything else is an exact file. */
  predicate Authorises(entry: string, file: string) {
    if entry != "" && entry[|entry| - 1] == '/' then entry <= file else file == entry
  }

  /** A directory entry covers what lies under it, and a file entry that file alone. */
  lemma AuthorisesIff(directory: string, entry: string, file: string)
    requires entry == "" || entry[|entry| - 1] != '/'
    ensures Authorises(directory + "/", file) <==> exists rest :: file == directory + "/" + rest
    ensures Authorises(entry, file) <==> file == entry
  {
    var prefix := directory + "/";
    assert prefix[|prefix| - 1] == '/';
    if prefix <= file {
      assert file == prefix + file[|prefix|..];
    }
  }

  predicate Authorised(entries: seq<string>, file: string) {
    exists e | e in entries :: Authorises(e, file)
  }

  /** Configured pathspecs with blank ones dropped. */
  function Globs(configured: seq<string>): (globs: seq<string>)
    ensures forall g :: g in globs <==> g in configured && !Blank(g)
  {
    if configured == [] then []
    else (if Blank(configured[0]) then [] else [configured[0]]) + Globs(configured[1..])
  }

  /** Whether git's pathspec matching, which is a parameter, puts the file off limits. */
  predicate OffLimits(pathspec: (string, string) -> bool, configured: seq<string>, file: string) {
    exists g | g in Globs(configured) :: pathspec(g, file)
  }

  /** The files of `matched` that are, or are not, authorised, in order. */
  function Split(matched: seq<string>, entries: seq<string>, wanted: bool): (part: seq<string>)
    ensures forall f :: f in part <==> f in matched && Authorised(entries, f) == wanted
    ensures Distinct(matched) ==> Distinct(part)
    ensures |part| <= |matched|
  {
    if matched == [] then []
    else
      var rest := Split(matched[1..], entries, wanted);
      assert Distinct(matched) ==> matched[0] !in matched[1..];
      if Authorised(entries, matched[0]) == wanted then [matched[0]] + rest else rest
  }

  predicate Distinct(s: seq<string>) {
    forall i, j | 0 <= i < j < |s| :: s[i] != s[j]
  }

  /** The path lists of the restore calls. */
  function Chunks(paths: seq<string>): seq<seq<string>> {
    if |paths| == 0 then []
    else if |paths| <= CHUNK then [paths]
    else [paths[..CHUNK]] + Chunks(paths[CHUNK..])
  }

  function Flatten(calls: seq<seq<string>>): seq<string> {
    if calls == [] then [] else calls[0] + Flatten(calls[1..])
  }

  /** Chunking names every path once, in order, in calls of at most 200. */
  lemma {:induction false} ChunksCover(paths: seq<string>)
    ensures Flatten(Chunks(paths)) == paths
    ensures forall c | c in Chunks(paths) :: 0 < |c| <= CHUNK
  {
    if 0 < |paths| <= CHUNK {
      assert Flatten([paths]) == paths + Flatten([]);
    } else if |paths| > CHUNK {
      ChunksCover(paths[CHUNK..]);
      assert Chunks(paths)[1..] == Chunks(paths[CHUNK..]);
    }
  }

  lemma {:induction false} ChunksAppend(paths: seq<string>, i: nat)
    requires i < |paths| && i % CHUNK == 0
    ensures var j := if i + CHUNK <= |paths| then i + CHUNK else |paths|;
      Chunks(paths[..j]) == Chunks(paths[..i]) + [paths[i..j]]
  {
    var j := if i + CHUNK <= |paths| then i + CHUNK else |paths|;
    if i == 0 {
      assert paths[0..j] == paths[..j];
      if |paths[..j]| == CHUNK {
        assert Chunks(paths[..j]) == [paths[..j]];
      }
    } else {
      ChunksAppend(paths[CHUNK..], i - CHUNK);
      assert paths[CHUNK..][i - CHUNK..j - CHUNK] == paths[i..j];
      assert paths[..j][..CHUNK] == paths[..CHUNK] && paths[..j][CHUNK..] == paths[CHUNK..][..j - CHUNK];
      assert paths[..i][CHUNK..] == paths[CHUNK..][..i - CHUNK];
      if i == CHUNK {
        assert paths[..i] == paths[..CHUNK];
      } else {
        assert paths[..i][..CHUNK] == paths[..CHUNK];
      }
    }
  }

  datatype CommitResult = Committed(files: set<string>) | NothingToCommit | Failed

  class Worktree {
    var staged: set<string>            // paths whose change is in the index
    var restored: seq<seq<string>>     // the path lists of the explicit unstaging calls so far

    constructor ()
      ensures staged == {} && restored == []
    {
      staged, restored := {}, [];
    }

    /**
     * Unstage the off-limits paths nobody authorised. `matched` is what git listed; `failing` is the
     * unstaging call that fails, after which the rest is skipped and the failure swallowed.
     */
    method RevertNeverCommitPaths(pathspec: (string, string) -> bool, configured: seq<string>,
                                  authorised: seq<string>, matched: seq<string>, failing: Option<nat>)
      returns (reverted: seq<string>, ok: bool)
      requires Distinct(matched)
      requires forall f :: f in matched <==> f in staged && OffLimits(pathspec, configured, f)
      modifies this
      ensures staged <= old(staged) && forall f | f in old(staged) :: f in staged || f in Split(matched, authorised, false)
      ensures failing.None? ==> ok
      ensures ok ==> reverted == Split(matched, authorised, false) && staged == old(staged) - (set f | f in reverted)
      ensures !ok ==> reverted == []
      // When some authorised path is staged too, the others are named one by one, each in one call.
      ensures ok && Split(matched, authorised, true) != [] ==> restored == old(restored) + Chunks(reverted)
      ensures ok && Split(matched, authorised, true) == [] ==> restored == old(restored)
    {
      var globs := Globs(configured);
      var toRevert := Split(matched, authorised, false);
      MatchNeedsGlob(pathspec, configured, matched);
      if |globs| == 0 || |matched| == 0 {
        return [], true;
      }
      NobodyAuthorised(matched);
      var spared := if |authorised| > 0 then Split(matched, authorised, true) else [];
      if |spared| > 0 {
        if |toRevert| == 0 {
          return [], true;
        }
        reverted, ok := UnstageInChunks(toRevert, failing);
      } else {
        NothingSpared(matched, authorised);
        if failing.Some? {
          return [], false;
        }
        staged := staged - (set f | f in matched);
        reverted, ok := matched, true;
      }
    }

    method UnstageInChunks(paths: seq<string>, failing: Option<nat>) returns (reverted: seq<string>, ok: bool)
      modifies this
      ensures failing.None? ==> ok
      ensures staged <= old(staged) && forall f | f in old(staged) - staged :: f in paths
      ensures ok ==> reverted == paths && staged == old(staged) - (set f | f in paths) && restored == old(restored) + Chunks(paths)
      ensures !ok ==> reverted == []
    {
      var i := 0;
      while i < |paths|
        invariant 0 <= i <= |paths| && (i % CHUNK == 0 || i == |paths|)
        invariant staged == old(staged) - (set f | f in paths[..i])
        invariant restored == old(restored) + Chunks(paths[..i])
        decreases |paths| - i
      {
        var j := if i + CHUNK <= |paths| then i + CHUNK else |paths|;
        if failing == Some(i / CHUNK) {
          return [], false;
        }
        ChunksAppend(paths, i);
        assert paths[..j] == paths[..i] + paths[i..j];
        staged := staged - (set f | f in paths[i..j]);
        restored := restored + [paths[i..j]];
        i := j;
      }
      assert paths[..|paths|] == paths;
      return paths, true;
    }

    /** Stage every change, drop the off-limits ones, and commit what is left. */
    method Commit(dirty: set<string>, pathspec: (string, string) -> bool, configured: seq<string>,
                  authorised: seq<string>, matched: seq<string>, failing: Option<nat>, statusClean: bool, commitWorks: bool)
      returns (r: CommitResult, ok: bool)
      requires Distinct(matched)
      requires forall f :: f in matched <==> f in dirty && OffLimits(pathspec, configured, f)
      modifies this
      ensures failing.None? ==> ok
      ensures r.Committed? ==> r.files != {} && r.files <= dirty
      ensures r.Committed? ==> forall f | f in dirty && !OffLimits(pathspec, configured, f) :: f in r.files
      ensures r.Committed? && ok ==> forall f | OffLimits(pathspec, configured, f) ::
                f in r.files <==> f in dirty && Authorised(authorised, f)
      ensures r.Committed? ==> forall f | f in dirty && Authorised(authorised, f) :: f in r.files
      ensures r.NothingToCommit? ==> forall f | f in dirty :: OffLimits(pathspec, configured, f) && !Authorised(authorised, f)
    {
      staged := dirty;
      var reverted;
      reverted, ok := RevertNeverCommitPaths(pathspec, configured, authorised, matched, failing);
      if staged == {} && statusClean {
        return NothingToCommit, ok;
      }
      if staged == {} || !commitWorks {
        return Failed, ok;
      }
      r := Committed(staged);
      staged := {};
    }
  }

  lemma MatchNeedsGlob(pathspec: (string, string) -> bool, configured: seq<string>, matched: seq<string>)
    requires forall f | f in matched :: OffLimits(pathspec, configured, f)
    ensures matched == [] || Globs(configured) != []
  {
    if matched != [] {
      assert matched[0] in matched;
    }
  }

  lemma {:induction false} NobodyAuthorised(matched: seq<string>)
    ensures Split(matched, [], true) == []
  {
    if matched != [] {
      NobodyAuthorised(matched[1..]);
    }
  }

  lemma {:induction false} NothingSpared(matched: seq<string>, authorised: seq<string>)
    requires Split(matched, authorised, true) == []
    ensures Split(matched, authorised, false) == matched
  {
    if matched != [] {
      var first, rest := matched[0], matched[1..];
      assert Authorised(authorised, first) ==> first in Split(matched, authorised, true);
      assert Split(rest, authorised, true) == Split(matched, authorised, true);
      NothingSpared(rest, authorised);
      assert matched == [first] + rest;
    }
  }
}
