/**
 * `PublishingHelper`: replicating an item from the master database to every
 * publication database, in every language of the master database.
 */
module Publishing {
  import opened Wrappers
  import opened Content

  /** Sitecore's `PublishMode`. */
  datatype PublishMode = Unknown | Full | Incremental | SingleItem | Smart

  /** One `PublishOptions` instance as `PublishItem` builds it. */
  datatype PublishOptions = PublishOptions(
    sourceDatabase: Database,
    targetDatabase: Database,
    mode: PublishMode,
    language: Language,
    publishDate: DateTime,
    deep: bool,
    compareRevisions: bool,
    rootItem: Option<Item>)

  /** The options for one (target database, language) pair: deep and revision-comparing whatever the mode. */
  function OptionsFor(source: Database, target: Database, mode: PublishMode, language: Language,
                      now: DateTime, item: Option<Item>): PublishOptions
  {
    PublishOptions(source, target, mode, language, now, true, true, item)
  }

  /** The batch submitted for one target database: one options value per language, in language order. */
  function Batch(source: Database, target: Database, mode: PublishMode, languages: seq<Language>,
                 now: DateTime, item: Option<Item>): seq<PublishOptions>
  {
    if languages == [] then []
    else Batch(source, target, mode, languages[..|languages| - 1], now, item)
         + [OptionsFor(source, target, mode, languages[|languages| - 1], now, item)]
  }

  /** All batches of one publish: one per target database, in target order. */
  function Plan(source: Database, targets: seq<Database>, mode: PublishMode,
                now: DateTime, item: Option<Item>): seq<seq<PublishOptions>>
  {
    if targets == [] then []
    else Plan(source, targets[..|targets| - 1], mode, now, item)
         + [Batch(source, targets[|targets| - 1], mode, source.languages, now, item)]
  }

  /** A batch holds one options value per language, the j-th for the j-th language. */
  lemma {:induction false} BatchAt(source: Database, target: Database, mode: PublishMode,
                                   languages: seq<Language>, now: DateTime, item: Option<Item>)
    ensures |Batch(source, target, mode, languages, now, item)| == |languages|
    ensures forall j :: 0 <= j < |languages| ==>
              Batch(source, target, mode, languages, now, item)[j]
              == OptionsFor(source, target, mode, languages[j], now, item)
  {
    if languages != [] {
      BatchAt(source, target, mode, languages[..|languages| - 1], now, item);
    }
  }

  /** The plan has one batch per target, the i-th for the i-th target database. */
  lemma {:induction false} PlanAt(source: Database, targets: seq<Database>, mode: PublishMode,
                                  now: DateTime, item: Option<Item>)
    ensures |Plan(source, targets, mode, now, item)| == |targets|
    ensures forall i :: 0 <= i < |targets| ==>
              Plan(source, targets, mode, now, item)[i]
              == Batch(source, targets[i], mode, source.languages, now, item)
  {
    if targets != [] {
      PlanAt(source, targets[..|targets| - 1], mode, now, item);
    }
  }

  /**
   * Option j of batch i targets the i-th publication database in the j-th language of
   * the master database; every option publishes `item` from the master database in the
   * caller's mode, deep and comparing revisions.
   */
  lemma PlanOptions(source: Database, targets: seq<Database>, mode: PublishMode,
                    now: DateTime, item: Option<Item>, i: nat, j: nat)
    requires i < |targets| && j < |source.languages|
    ensures var plan := Plan(source, targets, mode, now, item);
      && |plan| == |targets| && |plan[i]| == |source.languages|
      && plan[i][j].targetDatabase == targets[i]
      && plan[i][j].language == source.languages[j]
      && plan[i][j].sourceDatabase == source
      && plan[i][j].mode == mode
      && plan[i][j].deep
      && plan[i][j].compareRevisions
      && plan[i][j].rootItem == item
  {
    PlanAt(source, targets, mode, now, item);
    BatchAt(source, targets[i], mode, source.languages, now, item);
  }

  /** The batches laid end to end: every options value submitted. */
  function Flatten(batches: seq<seq<PublishOptions>>): seq<PublishOptions> {
    if batches == [] then [] else Flatten(batches[..|batches| - 1]) + batches[|batches| - 1]
  }

  /** A publish submits |targets| * |languages| options in all. */
  lemma {:induction false} PlanSize(source: Database, targets: seq<Database>, mode: PublishMode,
                                    now: DateTime, item: Option<Item>)
    ensures |Flatten(Plan(source, targets, mode, now, item))| == |targets| * |source.languages|
  {
    if targets != [] {
      PlanSize(source, targets[..|targets| - 1], mode, now, item);
      BatchAt(source, targets[|targets| - 1], mode, source.languages, now, item);
    }
  }

  /** The names, in order, of databases opened by `factory` until the first name it cannot open. */
  function OpenDatabases(factory: string -> Option<Database>, names: seq<string>): seq<Database> {
    if names == [] then []
    else match factory(names[0])
      case None => []
      case Some(db) => [db] + OpenDatabases(factory, names[1..])
  }

  predicate AllOpen(factory: string -> Option<Database>, names: seq<string>) {
    forall k :: 0 <= k < |names| ==> factory(names[k]).Some?
  }

  /** When every name opens, there is one database per name, in name order. */
  lemma {:induction false} OpenDatabasesAll(factory: string -> Option<Database>, names: seq<string>)
    requires AllOpen(factory, names)
    ensures |OpenDatabases(factory, names)| == |names|
    ensures forall k :: 0 <= k < |names| ==> OpenDatabases(factory, names)[k] == factory(names[k]).value
  {
    if names != [] {
      assert AllOpen(factory, names[1..]) by {
        forall k | 0 <= k < |names| - 1 ensures factory(names[1..][k]).Some? {
          assert names[1..][k] == names[k + 1];
        }
      }
      OpenDatabasesAll(factory, names[1..]);
    }
  }

  /**
   * The process-wide state of `PublishingHelper`: the master database, set once, and the
   * list of publication databases, replaced as a whole. `submitted` records, in order, the
   * batches handed to `PublishManager.Publish`.
   */
  class PublishingHelper {
    var masterDB: Option<Database>
    var publicationDBs: Option<seq<Database>>
    ghost var submitted: seq<seq<PublishOptions>>

    /** Both static fields start out null, and nothing has been published. */
    constructor ()
      ensures masterDB == None && publicationDBs == None && submitted == []
    {
      masterDB := None;
      publicationDBs := None;
      submitted := [];
    }

    /** `PublishItem` does its work only when both databases are configured and there is a target. */
    predicate Ready()
      reads this
    {
      masterDB.Some? && publicationDBs.Some? && |publicationDBs.value| > 0
    }

    /**
     * `SetUpMasterDatabase`: `masterDB ?? Factory.GetDatabase("master")`. Once set it is
     * never replaced. `raised` tells that `Factory.GetDatabase` threw, leaving it null.
     */
    method SetUpMasterDatabase(factory: string -> Option<Database>) returns (raised: bool)
      modifies this`masterDB
      ensures old(masterDB).Some? ==> masterDB == old(masterDB) && !raised
      ensures old(masterDB).None? ==> masterDB == factory("master") && raised == factory("master").None?
    {
      raised := false;
      if masterDB.None? {
        var db := factory("master");
        raised := db.None?;
        masterDB := db;
      }
    }

    /**
     * `SetUpPublicationDatabases`: a new list, then one `Factory.GetDatabase` per name, in
     * order. When the factory throws (`raised`), the list keeps the databases opened so far.
     */
    method SetUpPublicationDatabases(factory: string -> Option<Database>, databases: seq<string>)
      returns (raised: bool)
      modifies this`publicationDBs
      ensures publicationDBs == Some(OpenDatabases(factory, databases))
      ensures raised <==> !AllOpen(factory, databases)
      ensures !raised ==> |publicationDBs.value| == |databases|
    {
      publicationDBs := Some([]);
      var i := 0;
      while i < |databases|
        invariant 0 <= i <= |databases|
        invariant AllOpen(factory, databases[..i])
        invariant publicationDBs.Some?
        invariant publicationDBs.value + OpenDatabases(factory, databases[i..]) == OpenDatabases(factory, databases)
      {
        var db := factory(databases[i]);
        if db.None? {
          assert OpenDatabases(factory, databases[i..]) == [];
          assert publicationDBs.value + [] == publicationDBs.value;
          assert publicationDBs.value == OpenDatabases(factory, databases);
          return true;
        }
        assert databases[i..][1..] == databases[i + 1..];
        assert databases[..i + 1][i] == databases[i];
        assert forall k :: 0 <= k < i ==> databases[..i + 1][k] == databases[..i][k];
        publicationDBs := Some(publicationDBs.value + [db.value]);
        i := i + 1;
      }
      assert databases[..i] == databases && databases[i..] == [];
      assert OpenDatabases(factory, databases[i..]) == [];
      assert publicationDBs.value + [] == publicationDBs.value;
      OpenDatabasesAll(factory, databases);
      return false;
    }

    /** `PublishManager.Publish`: hands one batch to the publishing engine. */
    method Publish(options: array<PublishOptions>)
      modifies this`submitted
      ensures submitted == old(submitted) + [options[..]]
    {
      submitted := submitted + [options[..]];
    }

    /**
     * `PublishItem(Item, PublishMode)`: when ready, one batch per publication database, in
     * order, each with one options value per master language (see `PlanOptions`);
     * otherwise nothing. The configuration is left as it is.
     */
    method PublishItem(item: Option<Item>, publishMode: PublishMode, now: DateTime)
      modifies this`submitted
      ensures masterDB == old(masterDB) && publicationDBs == old(publicationDBs)
      ensures !Ready() ==> submitted == old(submitted)
      ensures Ready() ==>
        submitted == old(submitted) + Plan(masterDB.value, publicationDBs.value, publishMode, now, item)
    {
      if masterDB.Some? && publicationDBs.Some? && |publicationDBs.value| > 0 {
        var master := masterDB.value;
        var targets := publicationDBs.value;
        var languages := master.languages;
        var empty := new PublishOptions[0];
        var optionsArray := new array<PublishOptions>[|targets|](_ => empty);
        var i := 0;
        while i < |targets|
          invariant 0 <= i <= |targets|
          invariant masterDB == old(masterDB) && publicationDBs == old(publicationDBs)
          invariant submitted == old(submitted) + Plan(master, targets[..i], publishMode, now, item)
        {
          var row := new PublishOptions[|languages|];
          optionsArray[i] := row;
          var j := 0;
          while j < |languages|
            modifies row
            invariant 0 <= j <= |languages|
            invariant forall k :: 0 <= k < j ==>
                        row[k] == OptionsFor(master, targets[i], publishMode, languages[k], now, item)
          {
            row[j] := PublishOptions(master, targets[i], publishMode, languages[j], now, true, true, item);
            j := j + 1;
          }
          BatchAt(master, targets[i], publishMode, languages, now, item);
          assert row[..] == Batch(master, targets[i], publishMode, languages, now, item);
          Publish(row);
          assert targets[..i + 1][..i] == targets[..i];
          assert Plan(master, targets[..i + 1], publishMode, now, item)
              == Plan(master, targets[..i], publishMode, now, item)
                 + [Batch(master, targets[i], publishMode, languages, now, item)];
          i := i + 1;
        }
        assert targets[..i] == targets;
      }
    }

    /**
     * `PublishItem(String, PublishMode)`: nothing without a master database; otherwise the
     * id is looked up there and the result, found or null, is published as above.
     */
    method PublishItemById(getItem: (Database, string) -> Option<Item>, itemID: string,
                           publishMode: PublishMode, now: DateTime)
      modifies this`submitted
      ensures masterDB == old(masterDB) && publicationDBs == old(publicationDBs)
      ensures !Ready() ==> submitted == old(submitted)
      ensures Ready() ==>
        submitted == old(submitted)
                     + Plan(masterDB.value, publicationDBs.value, publishMode, now, getItem(masterDB.value, itemID))
    {
      if masterDB.Some? {
        var item := getItem(masterDB.value, itemID);
        PublishItem(item, publishMode, now);
      }
    }
  }

  /**
   * Two publication databases and three languages: two batches of three options,
   * six in all; with no publication database, nothing.
   */
  method PublishScenario(master: Database, web: Database, preview: Database, item: Item, now: DateTime)
    requires |master.languages| == 3
  {
    var helper := new PublishingHelper();
    var raised := helper.SetUpMasterDatabase(name => if name == "master" then Some(master) else None);
    assert !raised && helper.masterDB == Some(master);
    helper.PublishItem(Some(item), SingleItem, now);
    assert helper.submitted == [];
    var factory := name => if name == "web" then Some(web) else if name == "preview" then Some(preview) else None;
    raised := helper.SetUpPublicationDatabases(factory, ["web", "preview"]);
    assert !raised;
    OpenDatabasesAll(factory, ["web", "preview"]);
    assert |helper.publicationDBs.value| == 2;
    assert helper.publicationDBs.value[0] == web && helper.publicationDBs.value[1] == preview;
    assert helper.publicationDBs.value == [web, preview];
    helper.PublishItem(Some(item), SingleItem, now);
    PlanAt(master, [web, preview], SingleItem, now, Some(item));
    BatchAt(master, web, SingleItem, master.languages, now, Some(item));
    BatchAt(master, preview, SingleItem, master.languages, now, Some(item));
    PlanSize(master, [web, preview], SingleItem, now, Some(item));
    assert |helper.submitted| == 2 && |helper.submitted[0]| == 3 && |helper.submitted[1]| == 3;
    assert |Flatten(helper.submitted)| == 6;
    assert helper.submitted[1][2].targetDatabase == preview && helper.submitted[1][2].deep;
  }
}
