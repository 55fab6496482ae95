/**
 * `DrugRAGManager` (`drug_rag_manager.py`): the object that owns the drug index and its
 * metadata, loads them from disk or rebuilds them from the drug API, and answers
 * recommendation requests once it is ready.
 *
 * The manager's fields and the three files it keeps are the state. What it meets outside
 * (the API's answer, the embedding model, the clock, how far the writes get before one
 * fails) is a `World` value given to each call.
 */
module DrugRagManager {
  import opened Wrappers
  import opened MedicineRag
  import opened VectorFaiss

  /**
   * A pickle file: absent, present but unreadable (`pickle.load` raises, as it does on a
   * file a failed write truncated), or holding a value.
   */
  datatype Stored<T> = Absent | Corrupt | Holds(value: T)

  /**
   * The files `drug_index.pkl`, `drug_meta.pkl` and `drug_status.json`. `lastUpdate` is the
   * time the status file records, `None` when the file is absent, unreadable or records none.
   */
  datatype Files = Files(index: Stored<FlatIndex>, meta: Stored<seq<Drug>>, lastUpdate: Option<int>)

  /** The fields `faiss_index`, `meta`, `is_initializing`, `last_update`, with the files. */
  datatype State = State(
    index: Option<FlatIndex>,
    meta: seq<Drug>,
    initializing: bool,
    lastUpdate: Option<int>,
    files: Files)

  /**
   * What one `initialize_rag_system` call meets: the records `get_all_drugs` returns, the
   * embedding model and its width, the clock, how many of the three writes (index file,
   * meta file, status file) succeed before one raises, and whether that failing write had
   * already opened its file (`open(..., 'wb')` and `open(..., 'w')` empty the file) when
   * it raised.
   */
  datatype World = World(fetched: seq<Drug>, embed: string -> Option<Vector>, width: nat, now: int,
                         writes: nat, truncates: bool)

  /** The dictionary `get_system_status` returns. */
  datatype SystemStatus = SystemStatus(
    initialized: bool,
    initializing: bool,
    drugCount: nat,
    indexFileExists: bool,
    metaFileExists: bool,
    lastUpdate: Option<int>)

  /** A fresh manager: no index, no records, not initialising, no update time. */
  function Fresh(files: Files): State {
    State(None, [], false, None, files)
  }

  /** The saved files are loaded, rather than rebuilt, exactly when this holds. */
  predicate LoadsFromDisk(s: State, force: bool) {
    !force && !s.files.index.Absent? && !s.files.meta.Absent?
  }

  /** Both saved files can be read back. */
  predicate Loadable(f: Files) {
    f.index.Holds? && f.meta.Holds?
  }

  /** A pickle file a write left behind: the new value, or, when the write raised, the old file or an emptied one. */
  function Written<T>(old_: Stored<T>, ok: bool, truncates: bool, v: T): (f: Stored<T>)
    ensures ok ==> f == Holds(v)
    ensures !ok ==> f == if truncates then Corrupt else old_
  {
    if ok then Holds(v) else if truncates then Corrupt else old_
  }

  /** `_load_status`: a recorded update time replaces the field; otherwise it stays. */
  function LoadStatus(s: State): (t: State)
    ensures t.lastUpdate == if s.files.lastUpdate.Some? then s.files.lastUpdate else s.lastUpdate
    ensures t.(lastUpdate := s.lastUpdate) == s
  {
    if s.files.lastUpdate.Some? then s.(lastUpdate := s.files.lastUpdate) else s
  }

  /**
   * `initialize_rag_system(force_rebuild)`: the new state and the returned flag. A load
   * that raises, and a rebuild write that raises, end the call with False after whatever
   * it had already changed.
   */
  function Initialize(s: State, force: bool, w: World): (r: (State, bool))
    requires Uniform(w.embed, w.width)
    // already initialising: False, and nothing changes
    ensures s.initializing ==> r == (s, false)
    // every other return leaves the flag cleared
    ensures !s.initializing ==> !r.0.initializing
    // loading: nothing is written and no fetch happens; the readable files become the fields
    ensures !s.initializing && LoadsFromDisk(s, force) ==>
      && r.0.files == s.files
      && (r.1 <==> Loadable(s.files))
      && (s.files.index.Holds? ==> r.0.index == Some(s.files.index.value))
      && (s.files.index.Corrupt? ==> r.0 == s.(initializing := false))
      && (r.1 ==> r.0.meta == s.files.meta.value)
      && (!r.1 ==> r.0.meta == s.meta && r.0.lastUpdate == s.lastUpdate)
    // an empty fetch: False, nothing changes
    ensures !s.initializing && !LoadsFromDisk(s, force) && w.fetched == [] ==> r == (s, false)
    // a rebuild: index and meta replaced together in memory, then the files one by one
    ensures !s.initializing && !LoadsFromDisk(s, force) && w.fetched != []
            && Build(w.fetched, w.embed, w.width).Success? ==>
      var built := Build(w.fetched, w.embed, w.width).value;
      && r.0.index == Some(built.0)
      && r.0.meta == w.fetched
      && r.0.files.index == Written(s.files.index, w.writes >= 1, w.truncates, built.0)
      && r.0.files.meta == (if w.writes >= 1 then Written(s.files.meta, w.writes >= 2, w.truncates, w.fetched)
                            else s.files.meta)
      && (r.1 <==> w.writes >= 3)
      && (r.1 ==> r.0.lastUpdate == Some(w.now) && r.0.files.lastUpdate == Some(w.now))
    // True only from a readable load or a rebuild whose every write succeeded
    ensures r.1 ==> !s.initializing && ((LoadsFromDisk(s, force) && Loadable(s.files)) || w.writes >= 3)
    // after True, memory and disk hold the same index and records
    ensures r.1 ==> r.0.index.Some? && r.0.files.index == Holds(r.0.index.value) && r.0.files.meta == Holds(r.0.meta)
  {
    if s.initializing then (s, false)
    else if LoadsFromDisk(s, force) then Load(s)
    else if w.fetched == [] then (s, false)
    else match Build(w.fetched, w.embed, w.width)
      case Failure(_) => (s, false)
      case Success((index, meta)) => Save(s.(index := Some(index), meta := meta), w)
  }

  /**
   * The load steps: the index file, then the records file, then the status file. A file
   * that does not read back ends them with False, after what was already loaded.
   */
  function Load(s: State): (r: (State, bool))
    requires !s.files.index.Absent? && !s.files.meta.Absent?
    ensures r.0.files == s.files && r.0.initializing == s.initializing
    ensures r.1 <==> Loadable(s.files)
    ensures s.files.index.Holds? ==> r.0.index == Some(s.files.index.value)
    ensures s.files.index.Corrupt? ==> r.0 == s
    ensures r.1 ==> r.0.meta == s.files.meta.value
    ensures !r.1 ==> r.0.meta == s.meta && r.0.lastUpdate == s.lastUpdate
  {
    match s.files.index
    case Corrupt => (s, false)
    case Holds(index) =>
      var indexLoaded := s.(index := Some(index));
      match s.files.meta
      case Corrupt => (indexLoaded, false)
      case Holds(meta) => (LoadStatus(indexLoaded.(meta := meta)), true)
  }

  /**
   * The save steps after a build: the index file, the records file, the update time and
   * the status file. A write that raises ends them with False, after what was already
   * written; the file it was writing stays or is emptied.
   */
  function Save(s: State, w: World): (r: (State, bool))
    requires s.index.Some?
    ensures r.0.index == s.index && r.0.meta == s.meta && r.0.initializing == s.initializing
    ensures r.0.files.index == Written(s.files.index, w.writes >= 1, w.truncates, s.index.value)
    ensures r.0.files.meta == if w.writes >= 1 then Written(s.files.meta, w.writes >= 2, w.truncates, s.meta)
                              else s.files.meta
    ensures r.1 <==> w.writes >= 3
    ensures r.1 ==> r.0.lastUpdate == Some(w.now) && r.0.files.lastUpdate == Some(w.now)
  {
    var index := s.index.value;
    if w.writes < 1 then (s.(files := s.files.(index := Written(s.files.index, false, w.truncates, index))), false)
    else
      var indexSaved := s.(files := s.files.(index := Holds(index)));
      if w.writes < 2 then (indexSaved.(files := indexSaved.files.(meta := Written(s.files.meta, false, w.truncates, s.meta))), false)
      else
        var stamped := indexSaved.(files := indexSaved.files.(meta := Holds(s.meta)), lastUpdate := Some(w.now));
        if w.writes < 3 then (stamped.(files := stamped.files.(lastUpdate := if w.truncates then None else s.files.lastUpdate)), false)
        else (stamped.(files := stamped.files.(lastUpdate := Some(w.now))), true)
  }

  /** `is_ready`: an index is present and no initialisation is under way. */
  predicate Ready(s: State) {
    s.index.Some? && !s.initializing
  }

  /**
   * `get_recommendation`: `None` without an index or records, while initialising, or when
   * the recommender raises (the search request failing, `ids == None`, or a row number
   * out of range); otherwise what `recommend_drug` returns.
   */
  function Recommendation(s: State, symptom: string, language: string, info: Option<PatientInfo>,
                          services: Services, ids: Option<seq<int>>): (r: Option<Response>)
    ensures r.Some? <==>
      && s.index.Some? && s.meta != [] && !s.initializing
      && ids.Some? && Candidates(ids.value, s.meta).Success?
    ensures r.Some? ==> Success(r.value) == RecommendDrug(symptom, ids.value, s.meta, language, info, services)
  {
    if s.index.None? || s.meta == [] then None
    else if s.initializing then None
    else if ids.None? then None
    else match RecommendDrug(symptom, ids.value, s.meta, language, info, services)
      case Failure(_) =>
        RecommendDrugOutcome(symptom, ids.value, s.meta, language, info, services);
        None
      case Success(response) =>
        RecommendDrugOutcome(symptom, ids.value, s.meta, language, info, services);
        Some(response)
  }

  /** `get_system_status` */
  function Status(s: State): (st: SystemStatus)
    ensures st.drugCount == |s.meta|
    ensures st.initialized && !st.initializing <==> Ready(s)
    ensures st.indexFileExists <==> !s.files.index.Absent?
    ensures st.metaFileExists <==> !s.files.meta.Absent?
  {
    SystemStatus(s.index.Some?, s.initializing, |s.meta|, !s.files.index.Absent?, !s.files.meta.Absent?, s.lastUpdate)
  }

  /** Whenever initialisation returns True, the manager is ready. */
  lemma InitializeThenReady(s: State, force: bool, w: World)
    requires Uniform(w.embed, w.width)
    ensures Initialize(s, force, w).1 ==> Ready(Initialize(s, force, w).0)
  {
  }

  /**
   * What a successful rebuild saves, a later manager loads back: a fresh manager over the
   * same files, initialised without forcing, gets the same index, records and update time.
   */
  lemma {:induction false} RebuildThenLoad(s: State, force: bool, w: World, later: bool, w2: World)
    requires Uniform(w.embed, w.width) && Uniform(w2.embed, w2.width)
    requires !LoadsFromDisk(s, force)
    requires Initialize(s, force, w).1
    ensures var saved := Initialize(s, force, w).0;
      var reloaded := Initialize(Fresh(saved.files), false, w2);
      && reloaded.1
      && reloaded.0.index == saved.index
      && reloaded.0.meta == saved.meta
      && reloaded.0.lastUpdate == saved.lastUpdate
  {
    var saved := Initialize(s, force, w).0;
    assert saved.files == Files(Holds(saved.index.value), Holds(saved.meta), Some(w.now));
  }

  /**
   * Ready is not enough for recommendations: after loading a saved but empty record list,
   * the manager is ready and still answers every request with None.
   */
  lemma ReadyWithoutRecords(s: State, w: World, symptom: string, language: string,
                            info: Option<PatientInfo>, services: Services, ids: Option<seq<int>>)
    requires Uniform(w.embed, w.width)
    requires !s.initializing && s.files.index.Holds? && s.files.meta == Holds([])
    ensures var t := Initialize(s, false, w).0;
      Ready(t) && Recommendation(t, symptom, language, info, services, ids).None?
  {
  }

  /**
   * A rebuild whose meta-file write raises leaves the new index on disk. If the write
   * raised before opening the file, the old records stay beside it and the next manager
   * loads that pair: the index has as many rows as the new records, while the records
   * served are the old ones. If it raised after `open(..., 'wb')` had emptied the file, the
   * next manager's initialisation fails.
   */
  lemma PartialSaveMixesFiles(s: State, force: bool, w: World, w2: World)
    requires Uniform(w.embed, w.width) && Uniform(w2.embed, w2.width)
    requires !s.initializing && !LoadsFromDisk(s, force) && w.fetched != []
    requires Build(w.fetched, w.embed, w.width).Success?
    requires w.writes == 1 && s.files.meta.Holds?
    ensures var after := Initialize(s, force, w);
      var reloaded := Initialize(Fresh(after.0.files), false, w2);
      && !after.1
      && reloaded.0.index == Some(Build(w.fetched, w.embed, w.width).value.0)
      && |reloaded.0.index.value.rows| == |w.fetched|
      && (!w.truncates ==> reloaded.1 && reloaded.0.meta == s.files.meta.value)
      && (w.truncates ==> !reloaded.1 && reloaded.0.meta == [])
  {
  }

  /**
   * A load whose index file reads back but whose records file does not returns False, yet
   * leaves the index in place: the manager then reports itself ready, with no records to
   * serve.
   */
  lemma FailedLoadStillReady(files: Files, w: World, symptom: string, language: string,
                             info: Option<PatientInfo>, services: Services, ids: Option<seq<int>>)
    requires Uniform(w.embed, w.width)
    requires files.index.Holds? && files.meta.Corrupt?
    ensures var r := Initialize(Fresh(files), false, w);
      && !r.1
      && Ready(r.0)
      && Status(r.0).initialized
      && Recommendation(r.0, symptom, language, info, services, ids).None?
  {
  }

  /** The manager object; `Snapshot()` is its state as a value. */
  class Manager {
    var faissIndex: Option<FlatIndex>
    var meta: seq<Drug>
    var isInitializing: bool
    var lastUpdate: Option<int>
    var files: Files

    function Snapshot(): State
      reads this
    {
      State(faissIndex, meta, isInitializing, lastUpdate, files)
    }

    /** `__init__`; reading the API key from `keys.config` is not modelled. */
    constructor(files: Files)
      ensures Snapshot() == Fresh(files)
    {
      faissIndex := None;
      meta := [];
      isInitializing := false;
      lastUpdate := None;
      this.files := files;
    }

    /** `initialize_rag_system`, step by step as the source takes them. */
    method InitializeRagSystem(forceRebuild: bool, world: World) returns (ok: bool)
      requires Uniform(world.embed, world.width)
      modifies this
      ensures (Snapshot(), ok) == Initialize(old(Snapshot()), forceRebuild, world)
    {
      if isInitializing {
        return false;
      }
      isInitializing := true;
      if !forceRebuild && !files.index.Absent? && !files.meta.Absent? {
        ok := LoadFiles();
        isInitializing := false;
        return ok;
      }
      var drugData := world.fetched;
      if drugData == [] {
        isInitializing := false;
        return false;
      }
      var built := BuildFaissIndex(drugData, world.embed, world.width);
      if built.Failure? {
        isInitializing := false;
        return false;
      }
      faissIndex, meta := Some(built.value.0), built.value.1;
      ok := SaveFiles(world);
      isInitializing := false;
    }

    /** The load steps of `initialize_rag_system`. */
    method LoadFiles() returns (ok: bool)
      requires !files.index.Absent? && !files.meta.Absent?
      modifies this
      ensures (Snapshot(), ok) == Load(old(Snapshot()))
    {
      if files.index.Corrupt? {
        return false;
      }
      faissIndex := Some(files.index.value);
      if files.meta.Corrupt? {
        return false;
      }
      meta := files.meta.value;
      LoadStatusFile();
      return true;
    }

    /** The save steps of `initialize_rag_system`, after the build. */
    method SaveFiles(world: World) returns (ok: bool)
      requires faissIndex.Some?
      modifies this
      ensures (Snapshot(), ok) == Save(old(Snapshot()), world)
    {
      if world.writes < 1 {
        files := files.(index := Written(files.index, false, world.truncates, faissIndex.value));
        return false;
      }
      files := files.(index := Holds(faissIndex.value));
      if world.writes < 2 {
        files := files.(meta := Written(files.meta, false, world.truncates, meta));
        return false;
      }
      files := files.(meta := Holds(meta));
      lastUpdate := Some(world.now);
      if world.writes < 3 {
        if world.truncates {
          files := files.(lastUpdate := None);
        }
        return false;
      }
      SaveStatusFile();
      return true;
    }

    /** `_load_status` */
    method LoadStatusFile()
      modifies this
      ensures Snapshot() == LoadStatus(old(Snapshot()))
    {
      if files.lastUpdate.Some? {
        lastUpdate := files.lastUpdate;
      }
    }

    /** `_save_status`: the status file records the current update time. */
    method SaveStatusFile()
      modifies this
      ensures Snapshot() == old(Snapshot()).(files := old(files).(lastUpdate := old(lastUpdate)))
    {
      files := files.(lastUpdate := lastUpdate);
    }

    /** `get_recommendation`; `ids` is what the vector search returned, `None` if it raised. */
    method GetRecommendation(symptom: string, language: string, info: Option<PatientInfo>,
                             services: Services, ids: Option<seq<int>>) returns (r: Option<Response>)
      ensures r == Recommendation(Snapshot(), symptom, language, info, services, ids)
    {
      if faissIndex.None? || meta == [] {
        return None;
      }
      if isInitializing {
        return None;
      }
      if ids.None? {
        return None;
      }
      var result := RecommendDrug(symptom, ids.value, meta, language, info, services);
      if result.Failure? {
        return None;
      }
      return Some(result.value);
    }

    /** `get_system_status` */
    method GetSystemStatus() returns (st: SystemStatus)
      ensures st == Status(Snapshot())
    {
      st := SystemStatus(faissIndex.Some?, isInitializing, |meta|, !files.index.Absent?, !files.meta.Absent?, lastUpdate);
    }

    /** `is_ready` */
    method IsReady() returns (ready: bool)
      ensures ready == Ready(Snapshot())
    {
      ready := faissIndex.Some? && !isInitializing;
    }
  }
}
