/** procesar_archivos: one pass over the .json entries of the input
    directory. Each file is read and parsed; a record that parses is
    uploaded with two audit keys and then moved to the success directory
    under the name derived from its date and time; a file that does not
    parse is moved to the error directory; any other failure leaves the file
    where it is, to be picked up by the next pass. */
module Ingestion {
  import opened Text
  import opened Naming

  const INPUT_DIR := "./entrada_json"
  const SUCCESS_DIR := "./procesados_exitosos"
  const ERROR_DIR := "./procesados_fallidos"
  const PROCESSED_KEY := "_metadata_procesado"
  const ORIGIN_KEY := "_metadata_archivo_origen"

  /** What open + json.load give for one file: a value, a JSONDecodeError,
      or another error (missing file, permissions, bad encoding). */
  datatype ReadResult = Parsed(doc: Document) | Malformed | Unreadable

  /** The outside world as the j-th file of the pass meets it. */
  datatype Environment = Environment(
    read: nat -> ReadResult,       // open and json.load
    uploadOk: nat -> bool,         // db.collection(...).add(datos)
    moveOk: nat -> bool,           // shutil.move to the success directory
    quarantineOk: nat -> bool,     // shutil.move to the error directory
    processedAt: nat -> string,    // datetime.now().isoformat()
    micros: nat -> Micros)         // datetime.now().strftime("%f")

  /** The directories that exist, the names in each of the three, and the documents in the collection. */
  datatype Folders = Folders(dirs: set<string>, input: set<string>, success: set<string>,
                             failed: set<string>, remote: seq<Document>)

  /** The record with its audit keys set, as uploaded. */
  function Augment(doc: Document, processedAt: string, origin: string): (d: Document)
    requires doc.JsonObject?
    ensures d.JsonObject?
    ensures d.fields.Keys == doc.fields.Keys + {PROCESSED_KEY, ORIGIN_KEY}
    ensures d.fields[PROCESSED_KEY] == JString(processedAt) && d.fields[ORIGIN_KEY] == JString(origin)
    ensures forall k :: k in doc.fields && k != PROCESSED_KEY && k != ORIGIN_KEY ==> d.fields[k] == doc.fields[k]
  {
    JsonObject(doc.fields[PROCESSED_KEY := JString(processedAt)][ORIGIN_KEY := JString(origin)])
  }

  /** ruta_destino: the computed name, or its suffixed form when a file of
      that name is already in the success directory (checked once). */
  function Destination(success: set<string>, name: string, micros: Micros): string {
    if name in success then Suffixed(name, micros) else name
  }

  /** The file left the input directory in this step. */
  predicate Leaves(env: Environment, j: nat) {
    match env.read(j)
    case Malformed => env.quarantineOk(j)
    case Parsed(doc) => doc.JsonObject? && env.uploadOk(j) && env.moveOk(j)
    case Unreadable => false
  }

  /** The move to the error directory failed inside the except clause: the
      exception escapes and ends the pass. */
  predicate Halts(env: Environment, j: nat) {
    env.read(j).Malformed? && !env.quarantineOk(j)
  }

  /** The document the step uploads, if it uploads one. */
  predicate Uploads(env: Environment, j: nat) {
    env.read(j).Parsed? && env.read(j).doc.JsonObject? && env.uploadOk(j)
  }

  /** No file before the j-th ended the pass. */
  predicate Reached(env: Environment, j: nat) {
    forall i :: 0 <= i < j ==> !Halts(env, i)
  }

  /** The body of the for loop for file f, the j-th of the pass; the flag
      says whether an exception escaped. */
  function Step(st: Folders, f: string, j: nat, env: Environment): (Folders, bool) {
    match env.read(j)
    case Unreadable => (st, false)
    case Malformed =>
      if env.quarantineOk(j) then (st.(input := st.input - {f}, failed := st.failed + {f}), false)
      else (st, true)
    case Parsed(doc) =>
      if doc.NotAnObject? || !env.uploadOk(j) then (st, false)
      else
        var d := Augment(doc, env.processedAt(j), f);
        var dest := Destination(st.success, NameForDate(d, f), env.micros(j));
        if env.moveOk(j) then (st.(input := st.input - {f}, success := st.success + {dest}, remote := st.remote + [d]), false)
        else (st.(remote := st.remote + [d]), false)
  }

  /** The loop over the files in order, stopping when an exception escapes. */
  function Run(st: Folders, files: seq<string>, env: Environment): (Folders, bool)
    decreases |files|
  {
    if |files| == 0 then (st, false)
    else
      var n := |files| - 1;
      var prev := Run(st, files[..n], env);
      if prev.1 then prev else Step(prev.0, files[n], n, env)
  }

  /** archivos: the entries of the listing whose names end in ".json", in order. */
  function JsonEntries(listing: seq<string>): seq<string>
    decreases |listing|
  {
    if |listing| == 0 then []
    else
      var n := |listing| - 1;
      JsonEntries(listing[..n]) + (if EndsWith(listing[n], JSON_EXT) then [listing[n]] else [])
  }

  /** The directories after the setup loop. */
  function Setup(st: Folders): Folders {
    st.(dirs := st.dirs + {INPUT_DIR, SUCCESS_DIR, ERROR_DIR})
  }

  /** procesar_archivos as a whole: without a connection the process exits
      before touching anything (reported as an escaped error). */
  function Pass(st: Folders, connected: bool, listing: seq<string>, env: Environment): (Folders, bool) {
    if !connected then (st, true) else Run(Setup(st), JsonEntries(listing), env)
  }

  predicate Distinct(s: seq<string>) {
    forall i, j :: 0 <= i < j < |s| ==> s[i] != s[j]
  }

  /** The metadata keys do not change the computed name. */
  lemma NameUnchangedByAugment(doc: Document, processedAt: string, origin: string, original: string)
    requires doc.JsonObject?
    ensures NameForDate(Augment(doc, processedAt, origin), original) == NameForDate(doc, original)
  {
    var d := Augment(doc, processedAt, origin);
    assert PROCESSED_KEY != FECHA_KEY && PROCESSED_KEY != HORA_KEY by {
      assert PROCESSED_KEY[1] != FECHA_KEY[1] && PROCESSED_KEY[1] != HORA_KEY[1];
    }
    assert ORIGIN_KEY != FECHA_KEY && ORIGIN_KEY != HORA_KEY by {
      assert ORIGIN_KEY[1] != FECHA_KEY[1] && ORIGIN_KEY[1] != HORA_KEY[1];
    }
    NameDependsOnDateFields(d, doc, original, original);
  }

  /** A file that does not parse goes to the error directory under its own
      name and nothing is uploaded for it; if that move fails the pass ends
      with the file still in place. */
  lemma MalformedIsQuarantined(st: Folders, f: string, j: nat, env: Environment)
    requires env.read(j).Malformed?
    ensures Step(st, f, j, env).0.remote == st.remote
    ensures Step(st, f, j, env).0.success == st.success
    ensures env.quarantineOk(j) ==>
      Step(st, f, j, env) == (st.(input := st.input - {f}, failed := st.failed + {f}), false)
    ensures !env.quarantineOk(j) ==> Step(st, f, j, env) == (st, true)
  {
  }

  /** A record that parses and uploads is in the collection with both audit
      keys; when the move succeeds the file has left the input directory and
      its destination, a ".json" name, is in the success directory. */
  lemma SuccessfulFile(st: Folders, f: string, j: nat, env: Environment)
    requires Uploads(env, j)
    ensures var r := Step(st, f, j, env).0;
      var doc := env.read(j).doc;
      && !Step(st, f, j, env).1
      && r.remote == st.remote + [Augment(doc, env.processedAt(j), f)]
      && r.remote[|st.remote|].fields[ORIGIN_KEY] == JString(f)
      && r.failed == st.failed && r.dirs == st.dirs
      && (env.moveOk(j) ==>
            var dest := Destination(st.success, NameForDate(doc, f), env.micros(j));
            && r.input == st.input - {f}
            && r.success == st.success + {dest}
            && EndsWith(dest, JSON_EXT))
      && (!env.moveOk(j) ==> r.input == st.input && r.success == st.success)
  {
    var doc := env.read(j).doc;
    var d := Augment(doc, env.processedAt(j), f);
    NameUnchangedByAugment(doc, env.processedAt(j), f, f);
    NameShape(doc, f);
    SuffixedEndsWithJson(NameForDate(doc, f), env.micros(j));
  }

  /** Every other failure (unreadable file, a value that is not an object,
      a failed upload) changes nothing. */
  lemma FailedFileStays(st: Folders, f: string, j: nat, env: Environment)
    requires env.read(j).Unreadable? || (env.read(j).Parsed? && !Uploads(env, j))
    ensures Step(st, f, j, env) == (st, false)
  {
  }

  /** Upload before move: when the move fails after the upload, the file is
      still in the input directory, so a later pass that uploads it again puts
      a second copy in the collection, equal to the first but for the
      processing time. */
  lemma AtLeastOnce(st: Folders, f: string, j: nat, env: Environment, j2: nat, env2: Environment)
    requires Uploads(env, j) && !env.moveOk(j) && f in st.input
    requires Uploads(env2, j2) && env2.read(j2) == env.read(j)
    ensures var s1 := Step(st, f, j, env).0;
      var s2 := Step(s1, f, j2, env2).0;
      var d1 := s2.remote[|st.remote|];
      var d2 := s2.remote[|st.remote| + 1];
      && f in s1.input
      && |s2.remote| == |st.remote| + 2 && s2.remote[..|st.remote|] == st.remote
      && d1.fields.Keys == d2.fields.Keys
      && (forall k :: k in d1.fields && k != PROCESSED_KEY ==> d1.fields[k] == d2.fields[k])
  {
    var doc := env.read(j).doc;
    var s1 := Step(st, f, j, env).0;
    assert s1.remote == st.remote + [Augment(doc, env.processedAt(j), f)];
    var s2 := Step(s1, f, j2, env2).0;
    assert s2.remote == s1.remote + [Augment(doc, env2.processedAt(j2), f)];
    assert s2.remote[..|st.remote|] == st.remote;
  }

  /** Only the j-th file's own name can leave the input directory in its step. */
  lemma StepFrame(st: Folders, f: string, j: nat, env: Environment)
    ensures var r := Step(st, f, j, env);
      && r.0.dirs == st.dirs
      && r.0.input == (if Leaves(env, j) then st.input - {f} else st.input)
      && st.success <= r.0.success && st.failed <= r.0.failed
      && (r.1 <==> Halts(env, j))
      && st.remote <= r.0.remote
      && (forall x :: x in r.0.success - st.success ==> EndsWith(x, JSON_EXT))
      && (forall k :: |st.remote| <= k < |r.0.remote| ==>
            r.0.remote[k].JsonObject? && ORIGIN_KEY in r.0.remote[k].fields && r.0.remote[k].fields[ORIGIN_KEY] == JString(f))
  {
    if Uploads(env, j) {
      SuccessfulFile(st, f, j, env);
    }
  }

  /** The pass ends early exactly when some file's quarantine move failed. */
  lemma {:induction false} RunHalts(st: Folders, files: seq<string>, env: Environment)
    ensures Run(st, files, env).1 <==> !Reached(env, |files|)
    decreases |files|
  {
    if |files| > 0 {
      var n := |files| - 1;
      RunHalts(st, files[..n], env);
      var prev := Run(st, files[..n], env);
      if !prev.1 {
        StepFrame(prev.0, files[n], n, env);
      }
    }
  }

  /** What a pass over distinct files does to the input directory: the j-th
      file leaves it exactly when it was reached and its step moved it, and
      names outside the list stay as they are. */
  lemma {:induction false} RunInput(st: Folders, files: seq<string>, env: Environment)
    requires Distinct(files)
    ensures var r := Run(st, files, env).0;
      && (forall j :: 0 <= j < |files| ==>
            (files[j] in r.input <==> files[j] in st.input && !(Reached(env, j) && Leaves(env, j))))
      && (forall x :: x !in files ==> (x in r.input <==> x in st.input))
    decreases |files|
  {
    if |files| > 0 {
      var n := |files| - 1;
      var init := files[..n];
      assert Distinct(init);
      RunInput(st, init, env);
      RunHalts(st, init, env);
      var prev := Run(st, init, env);
      var r := Run(st, files, env).0;
      if !prev.1 {
        StepFrame(prev.0, files[n], n, env);
      }
      forall j | 0 <= j < |files|
        ensures files[j] in r.input <==> files[j] in st.input && !(Reached(env, j) && Leaves(env, j))
      {
        if j == n {
          assert files[n] !in init;
        } else {
          assert init[j] == files[j];
          assert files[j] != files[n];
        }
      }
      forall x | x !in files
        ensures x in r.input <==> x in st.input
      {
        assert x !in init;
      }
    }
  }

  /** What any pass does to the rest of the state: the directories stay,
      the input directory only shrinks, nothing leaves the success or error
      directories, the collection only grows, each new document naming a
      file of the list, and every name added to the success directory ends
      in ".json". */
  lemma {:induction false} RunGrowth(st: Folders, files: seq<string>, env: Environment)
    ensures var r := Run(st, files, env).0;
      && r.dirs == st.dirs
      && r.input <= st.input
      && st.success <= r.success && st.failed <= r.failed
      && st.remote <= r.remote
      && (forall x :: x in r.success - st.success ==> EndsWith(x, JSON_EXT))
      && (forall k :: |st.remote| <= k < |r.remote| ==>
            r.remote[k].JsonObject? && ORIGIN_KEY in r.remote[k].fields
            && exists f :: f in files && r.remote[k].fields[ORIGIN_KEY] == JString(f))
    decreases |files|
  {
    if |files| > 0 {
      var n := |files| - 1;
      var init := files[..n];
      RunGrowth(st, init, env);
      var prev := Run(st, init, env);
      var r := Run(st, files, env).0;
      if prev.1 {
        assert r == prev.0;
      } else {
        StepFrame(prev.0, files[n], n, env);
      }
      forall k | |st.remote| <= k < |r.remote|
        ensures r.remote[k].JsonObject? && ORIGIN_KEY in r.remote[k].fields
          && exists f :: f in files && r.remote[k].fields[ORIGIN_KEY] == JString(f)
      {
        if k < |prev.0.remote| {
          assert r.remote[k] == prev.0.remote[k];
          var f :| f in init && r.remote[k].fields[ORIGIN_KEY] == JString(f);
          assert f in files;
        } else {
          assert !prev.1;
          StepFrame(prev.0, files[n], n, env);
          assert r.remote[k].fields[ORIGIN_KEY] == JString(files[n]);
          assert files[n] in files;
        }
      }
    } else {
      assert Run(st, files, env) == (st, false);
    }
  }

  /** Exactly the names ending in ".json" are selected, in listing order. */
  lemma {:induction false} JsonEntriesMeaning(listing: seq<string>)
    ensures forall x :: x in JsonEntries(listing) <==> x in listing && EndsWith(x, JSON_EXT)
    ensures Distinct(listing) ==> Distinct(JsonEntries(listing))
    decreases |listing|
  {
    if |listing| > 0 {
      var n := |listing| - 1;
      JsonEntriesMeaning(listing[..n]);
      assert listing == listing[..n] + [listing[n]];
      if Distinct(listing) {
        assert Distinct(listing[..n]);
        assert listing[n] !in listing[..n];
      }
    }
  }

  lemma {:induction false} NoJsonEntries(listing: seq<string>)
    requires forall x :: x in listing ==> !EndsWith(x, JSON_EXT)
    ensures JsonEntries(listing) == []
    decreases |listing|
  {
    if |listing| > 0 {
      var n := |listing| - 1;
      assert listing[n] in listing;
      assert forall x :: x in listing[..n] ==> x in listing;
      NoJsonEntries(listing[..n]);
    }
  }

  /** The pass as a whole: without a connection nothing changes; otherwise
      the three directories exist afterwards, names that do not end in
      ".json" stay in the input directory, and a listing without such names
      changes nothing but the directories. */
  lemma PassEffect(st: Folders, connected: bool, listing: seq<string>, env: Environment)
    requires Distinct(listing)
    ensures !connected ==> Pass(st, connected, listing, env) == (st, true)
    ensures connected ==> var r := Pass(st, connected, listing, env).0;
      && r.dirs == st.dirs + {INPUT_DIR, SUCCESS_DIR, ERROR_DIR}
      && (forall x :: x in st.input && !EndsWith(x, JSON_EXT) ==> x in r.input)
      && r.input <= st.input && st.success <= r.success && st.failed <= r.failed && st.remote <= r.remote
    ensures connected && (forall x :: x in listing ==> !EndsWith(x, JSON_EXT)) ==>
      Pass(st, connected, listing, env) == (Setup(st), false)
  {
    if connected {
      JsonEntriesMeaning(listing);
      RunInput(Setup(st), JsonEntries(listing), env);
      RunGrowth(Setup(st), JsonEntries(listing), env);
      if forall x :: x in listing ==> !EndsWith(x, JSON_EXT) {
        NoJsonEntries(listing);
      }
    }
  }

  /** The three working directories, their contents and the collection. */
  class DropFolders {
    var dirs: set<string>
    var input: set<string>
    var success: set<string>
    var failed: set<string>
    var remote: seq<Document>

    function State(): Folders
      reads this
    {
      Folders(dirs, input, success, failed, remote)
    }

    constructor(dirs0: set<string>, input0: set<string>, success0: set<string>, failed0: set<string>)
      ensures State() == Folders(dirs0, input0, success0, failed0, [])
    {
      dirs := dirs0;
      input := input0;
      success := success0;
      failed := failed0;
      remote := [];
    }

    /** The setup loop: every working directory that does not exist is created. */
    method EnsureDirectories()
      modifies this
      ensures State() == Setup(old(State()))
    {
      var wanted := [INPUT_DIR, SUCCESS_DIR, ERROR_DIR];
      for i := 0 to |wanted|
        invariant input == old(input) && success == old(success) && failed == old(failed) && remote == old(remote)
        invariant dirs == old(dirs) + set k | 0 <= k < i :: wanted[k]
      {
        if wanted[i] !in dirs {
          dirs := dirs + {wanted[i]};
        }
      }
      assert (set k | 0 <= k < 3 :: wanted[k]) == {INPUT_DIR, SUCCESS_DIR, ERROR_DIR} by {
        assert wanted[0] == INPUT_DIR && wanted[1] == SUCCESS_DIR && wanted[2] == ERROR_DIR;
      }
    }

    /** One iteration of the loop: read, upload, rename and move, or quarantine. */
    method ProcessFile(f: string, j: nat, env: Environment) returns (escaped: bool)
      modifies this
      ensures (State(), escaped) == Step(old(State()), f, j, env)
    {
      escaped := false;
      match env.read(j) {
        case Unreadable =>
        case Malformed =>
          if env.quarantineOk(j) {
            input := input - {f};
            failed := failed + {f};
          } else {
            escaped := true;
          }
        case Parsed(doc) =>
          if doc.JsonObject? && env.uploadOk(j) {
            var datos := Augment(doc, env.processedAt(j), f);
            remote := remote + [datos];
            var name := NameForDate(datos, f);
            var dest := name;
            if dest in success {
              dest := Suffixed(name, env.micros(j));
            }
            if env.moveOk(j) {
              input := input - {f};
              success := success + {dest};
            }
          }
      }
    }

    /** procesar_archivos. listing is what os.listdir returns for the input
        directory once it exists: each of its names once. */
    method ProcessFiles(connected: bool, listing: seq<string>, env: Environment) returns (escaped: bool)
      requires Distinct(listing) && forall x :: x in listing <==> x in input
      modifies this
      ensures (State(), escaped) == Pass(old(State()), connected, listing, env)
    {
      if !connected {
        return true;
      }
      EnsureDirectories();
      var files := JsonEntries(listing);
      escaped := false;
      if |files| == 0 {
        return;
      }
      ghost var s0 := State();
      var j := 0;
      while j < |files|
        invariant 0 <= j <= |files|
        invariant s0 == Setup(old(State()))
        invariant (State(), false) == Run(s0, files[..j], env)
      {
        assert files[..j + 1][..j] == files[..j];
        var e := ProcessFile(files[j], j, env);
        if e {
          assert Run(s0, files[..j + 1], env) == (State(), true);
          RunStops(s0, files, j + 1, env);
          return true;
        }
        j := j + 1;
      }
      assert files[..j] == files;
    }
  }

  /** After an escaped error the rest of the list is not looked at. */
  lemma {:induction false} RunStops(st: Folders, files: seq<string>, m: nat, env: Environment)
    requires m <= |files| && Run(st, files[..m], env).1
    ensures Run(st, files, env) == Run(st, files[..m], env)
    decreases |files| - m
  {
    if m < |files| {
      var n := |files| - 1;
      assert files[..n][..m] == files[..m];
      RunStops(st, files[..n], m, env);
      assert files[..|files|] == files;
    } else {
      assert files[..m] == files;
    }
  }
}
