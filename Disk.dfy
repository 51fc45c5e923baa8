/**
 * The files the Python `$ref` scripts read and write, as a value: a map from
 * path to contents and the log of writes and removals in the order they
 * happen. A script step takes a store and gives the next one.
 */
module Disk {
  import opened Text

  datatype IoOp = Write(path: string, text: string) | Remove(path: string)

  datatype Store = Store(files: map<string, string>, trace: seq<IoOp>)

  /**
   * What `open(path, 'r').read()` gives for stored text: every `\r\n` and
   * every lone `\r` comes back as `\n`.
   */
  function UniversalNewlines(s: string): string
    decreases |s|
  {
    if s == [] then []
    else if s[0] == '\r' then "\n" + UniversalNewlines(if |s| > 1 && s[1] == '\n' then s[2..] else s[1..])
    else [s[0]] + UniversalNewlines(s[1..])
  }

  lemma {:induction false} UniversalNewlinesPlain(s: string)
    requires '\r' !in s
    ensures UniversalNewlines(s) == s
    decreases |s|
  {
    if s != [] {
      assert s[0] in s;
      assert '\r' !in s[1..] by {
        forall i | 0 <= i < |s[1..]| ensures s[1..][i] != '\r' { assert s[1..][i] == s[i + 1]; }
      }
      UniversalNewlinesPlain(s[1..]);
      assert [s[0]] + s[1..] == s;
    }
  }

  lemma {:induction false} UniversalNewlinesHasNoCR(s: string)
    ensures '\r' !in UniversalNewlines(s)
    decreases |s|
  {
    if s != [] {
      var t := if s[0] == '\r' && |s| > 1 && s[1] == '\n' then s[2..] else s[1..];
      UniversalNewlinesHasNoCR(t);
    }
  }

  /** A file with a Windows line ending does not read back as it is stored. */
  lemma CrLfReadsAsLf()
    ensures UniversalNewlines("a\r\nb") == "a\nb"
  {
    assert "a\r\nb"[1..] == "\r\nb";
    assert "\r\nb"[2..] == "b";
    assert "b"[1..] == [];
  }

  /** Reading a file in text mode; `None` is the exception a missing file raises. */
  function Read(st: Store, path: string): (r: Option<string>)
    ensures r.Some? <==> path in st.files
  {
    if path in st.files then Some(UniversalNewlines(st.files[path])) else None
  }

  function Put(st: Store, path: string, text: string): Store {
    Store(st.files[path := text], st.trace + [Write(path, text)])
  }

  function Delete(st: Store, path: string): Store {
    Store(st.files - {path}, st.trace + [Remove(path)])
  }

  function BackupPath(path: string): string { path + ".bak" }

  lemma BackupPathEnds(path: string)
    ensures EndsWith(BackupPath(path), ".bak") && BackupPath(path) != path
  {
    assert BackupPath(path)[|path|..] == ".bak";
  }

  /** Whether a script saves `path.bak` before deciding to rewrite `path`. */
  datatype Mode = WithBackup | InPlace

  /**
   * Read `path`, rewrite its text with `f`, and write the result back only
   * when it differs. With a backup, the text read is saved to `path.bak`
   * first, and that backup is removed again when nothing changed. The flag
   * says whether the file was rewritten.
   */
  function Update(st: Store, path: string, f: string -> string, mode: Mode): (r: (Store, bool))
    ensures path !in st.files ==> r == (st, false)
    ensures path in st.files ==>
      var text := UniversalNewlines(st.files[path]);
      && r.1 == (f(text) != text)
      && path in r.0.files
      && r.0.files[path] == (if r.1 then f(text) else st.files[path])
      && (mode == WithBackup ==>
            && (BackupPath(path) in r.0.files <==> r.1)
            && (r.1 ==> r.0.files[BackupPath(path)] == text)
            && |r.0.trace| > |st.trace| && r.0.trace[|st.trace|] == Write(BackupPath(path), text))
    ensures forall q :: q != path && (mode == InPlace || q != BackupPath(path)) ==>
      (q in r.0.files <==> q in st.files) && (q in st.files ==> r.0.files[q] == st.files[q])
    ensures |st.trace| <= |r.0.trace| && r.0.trace[..|st.trace|] == st.trace
    ensures !r.1 ==> forall i :: |st.trace| <= i < |r.0.trace| ==> r.0.trace[i].path != path
  {
    match Read(st, path)
    case None => (st, false)
    case Some(text) =>
      BackupPathEnds(path);
      var out := f(text);
      var saved := if mode == WithBackup then Put(st, BackupPath(path), text) else st;
      if out != text then (Put(saved, path, out), true)
      else (if mode == WithBackup then Delete(saved, BackupPath(path)) else saved, false)
  }

  /** The loop over a file list, `f(p)` rewriting the text of `p`: the final store and how many files were rewritten. */
  function UpdateAll(st: Store, paths: seq<string>, f: string -> string -> string, mode: Mode): (Store, nat)
  {
    if paths == [] then (st, 0)
    else
      var before := UpdateAll(st, paths[..|paths| - 1], f, mode);
      var step := Update(before.0, paths[|paths| - 1], f(paths[|paths| - 1]), mode);
      (step.0, before.1 + if step.1 then 1 else 0)
  }

  /** One more turn of the loop. */
  lemma UpdateAllStep(st: Store, paths: seq<string>, i: nat, f: string -> string -> string, mode: Mode)
    requires i < |paths|
    ensures var before := UpdateAll(st, paths[..i], f, mode);
      var step := Update(before.0, paths[i], f(paths[i]), mode);
      UpdateAll(st, paths[..i + 1], f, mode) == (step.0, before.1 + if step.1 then 1 else 0)
  {
    assert paths[..i + 1][..i] == paths[..i];
  }

  /**
   * The loop every script runs over its file list: `Update` on each file in
   * turn, counting the files rewritten.
   */
  method UpdateEach(st: Store, paths: seq<string>, f: string -> string -> string, mode: Mode) returns (st': Store, updated: nat)
    ensures (st', updated) == UpdateAll(st, paths, f, mode)
  {
    st', updated := st, 0;
    var i := 0;
    while i < |paths|
      invariant 0 <= i <= |paths|
      invariant (st', updated) == UpdateAll(st, paths[..i], f, mode)
    {
      UpdateAllStep(st, paths, i, f, mode);
      var step := Update(st', paths[i], f(paths[i]), mode);
      st' := step.0;
      if step.1 {
        updated := updated + 1;
      }
      i := i + 1;
    }
    assert paths[..i] == paths;
  }

  /** The loop never counts more files than it was given. */
  lemma {:induction false} UpdateAllBound(st: Store, paths: seq<string>, f: string -> string -> string, mode: Mode)
    ensures UpdateAll(st, paths, f, mode).1 <= |paths|
    decreases |paths|
  {
    if paths != [] {
      UpdateAllBound(st, paths[..|paths| - 1], f, mode);
    }
  }

  /** The number of listed files whose text `f` changes, judged on the store before the loop. */
  function ChangedCount(files: map<string, string>, paths: seq<string>, f: string -> string -> string): (n: nat)
    ensures n <= |paths|
  {
    if paths == [] then 0
    else
      var p := paths[|paths| - 1];
      ChangedCount(files, paths[..|paths| - 1], f)
      + if p in files && f(p)(UniversalNewlines(files[p])) != UniversalNewlines(files[p]) then 1 else 0
  }

  /** Distinct paths, none of them a backup: what a `*.yaml` or `*.yml` listing gives. */
  predicate Listing(paths: seq<string>) {
    (forall i, j :: 0 <= i < j < |paths| ==> paths[i] != paths[j])
    && forall i :: 0 <= i < |paths| ==> !EndsWith(paths[i], ".bak")
  }

  /** The loop leaves alone every file that is neither listed nor the backup of a listed one. */
  lemma {:induction false} UpdateAllFrame(st: Store, paths: seq<string>, f: string -> string -> string, mode: Mode, q: string)
    requires q !in paths && forall i :: 0 <= i < |paths| ==> q != BackupPath(paths[i])
    ensures var files := UpdateAll(st, paths, f, mode).0.files;
      (q in files <==> q in st.files) && (q in st.files ==> files[q] == st.files[q])
    decreases |paths|
  {
    if paths != [] {
      var init := paths[..|paths| - 1];
      assert forall i :: 0 <= i < |init| ==> init[i] == paths[i];
      UpdateAllFrame(st, init, f, mode, q);
    }
  }

  /** Rewriting in place creates and deletes no file, and leaves every unlisted file alone. */
  lemma {:induction false} UpdateAllInPlaceFrame(st: Store, paths: seq<string>, f: string -> string -> string, q: string)
    ensures var files := UpdateAll(st, paths, f, InPlace).0.files;
      (q in files <==> q in st.files) && (q !in paths && q in st.files ==> files[q] == st.files[q])
    decreases |paths|
  {
    if paths != [] {
      var init := paths[..|paths| - 1];
      assert q !in paths ==> q !in init by {
        if q in init { var i :| 0 <= i < |init| && init[i] == q; assert paths[i] == q; }
      }
      UpdateAllInPlaceFrame(st, init, f, q);
    }
  }

  /** The count the loop returns is the number of files `f` changes. */
  lemma {:induction false} UpdateAllCount(st: Store, paths: seq<string>, f: string -> string -> string, mode: Mode)
    requires Listing(paths)
    ensures UpdateAll(st, paths, f, mode).1 == ChangedCount(st.files, paths, f)
    decreases |paths|
  {
    if paths != [] {
      var init := paths[..|paths| - 1];
      var p := paths[|paths| - 1];
      assert forall i :: 0 <= i < |init| ==> init[i] == paths[i];
      UpdateAllCount(st, init, f, mode);
      forall i | 0 <= i < |init| ensures p != BackupPath(init[i]) {
        BackupPathEnds(init[i]);
      }
      UpdateAllFrame(st, init, f, mode, p);
    }
  }
}
