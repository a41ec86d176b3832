/**
 * The store wrapper of database.py. The vector database itself is a map from
 * collection to a map from `_id` to document; everything the wrapper adds
 * (the empty-text guard, metadata shaping, the collection-name lookup, the
 * pagination arithmetic, the reading of the delete result and the turning of
 * every failure into `None` / `[]` / `False`) is modelled.
 */
module Database {
  import opened Wrappers
  import opened Documents

  datatype Collection = Thoughts | Game | Chat

  const ThoughtsCollectionName := "personal_thoughts"
  const GameCollectionName := "game_responses"
  const ChatCollectionName := "chat_interactions"

  /** The configured name of each collection. */
  function NameOf(c: Collection): string {
    match c
    case Thoughts => ThoughtsCollectionName
    case Game => GameCollectionName
    case Chat => ChatCollectionName
  }

  /** `_get_collection_by_name`: one of the three configured names, or `ValueError` (`None` here). */
  function CollectionByName(name: string): (r: Option<Collection>)
    ensures r.Some? <==> name == ThoughtsCollectionName || name == GameCollectionName || name == ChatCollectionName
    ensures r.Some? ==> NameOf(r.value) == name
  {
    if name == ThoughtsCollectionName then Some(Thoughts)
    else if name == GameCollectionName then Some(Game)
    else if name == ChatCollectionName then Some(Chat)
    else None
  }

  /** Each collection is found again under its own name. */
  lemma CollectionByNameOfName(c: Collection)
    ensures CollectionByName(NameOf(c)) == Some(c)
  {
  }

  /**
   * The metadata `store_entry` writes: the caller's dictionary (or a new one)
   * with `text` and `created_at` overwritten and `categories` set only when
   * the categories argument is non-empty.
   */
  function ShapeMetadata(metadata: Option<Metadata>, text: string, now: string, categories: Option<seq<string>>): (m: Metadata)
    ensures m.text == Some(text) && m.createdAt == Some(now)
    ensures m.extra == metadata.GetOr(EmptyMetadata).extra
    ensures categories.Some? && categories.value != [] ==> m.categories == categories
    ensures !(categories.Some? && categories.value != []) ==> m.categories == metadata.GetOr(EmptyMetadata).categories
  {
    var base := metadata.GetOr(EmptyMetadata);
    var withText := base.(text := Some(text), createdAt := Some(now));
    if categories.Some? && categories.value != [] then withText.(categories := categories) else withText
  }

  /** The document `store_entry` inserts. */
  function NewDocument(id: string, text: string, metadata: Metadata): Doc {
    Doc(Some(id), Some(text), None, Some(metadata))
  }

  /**
   * The collections after `store_entry` into collection `c`: the new
   * document under `entryId`, unless the text is empty, the store fails or
   * already holds that id. Nothing else is added, removed or overwritten.
   */
  function AfterStore(collections: map<Collection, map<string, Doc>>, c: Collection, text: string,
                      metadata: Option<Metadata>, categories: Option<seq<string>>,
                      entryId: string, now: string, fault: bool): (r: map<Collection, map<string, Doc>>)
    requires c in collections
    ensures r.Keys == collections.Keys
    ensures forall d | d in collections && d != c :: r[d] == collections[d]
    ensures forall k | k in collections[c] :: k in r[c] && r[c][k] == collections[c][k]
    ensures forall k | k in r[c] && k !in collections[c] :: k == entryId
    ensures entryId in r[c] && entryId !in collections[c] <==> text != "" && !fault && entryId !in collections[c]
    ensures entryId in r[c] && entryId !in collections[c] ==>
      r[c][entryId] == NewDocument(entryId, text, ShapeMetadata(metadata, text, now, categories))
  {
    if text == "" || fault || entryId in collections[c] then collections
    else collections[c := collections[c][entryId := NewDocument(entryId, text, ShapeMetadata(metadata, text, now, categories))]]
  }

  /** `skip = (page - 1) * page_size` */
  function PageSkip(page: int, pageSize: int): (skip: int)
    requires page >= 1 && pageSize >= 1
    ensures skip >= 0
    ensures page == 1 ==> skip == 0
  {
    (page - 1) * pageSize
  }

  /** What a `find` with `skip` and `limit` returns from the documents in the store's order. */
  function Window(listing: seq<Doc>, skip: nat, limit: nat): (r: seq<Doc>)
    ensures |r| <= limit
    ensures skip < |listing| ==> r == listing[skip..if skip + limit <= |listing| then skip + limit else |listing|]
    ensures skip >= |listing| ==> r == []
  {
    if skip >= |listing| then []
    else if skip + limit <= |listing| then listing[skip..skip + limit]
    else listing[skip..]
  }

  /** Pages `1 .. k` of `get_all_entries`, one after the other. */
  function Pages(listing: seq<Doc>, pageSize: int, k: nat): seq<Doc>
    requires pageSize >= 1
  {
    if k == 0 then [] else Pages(listing, pageSize, k - 1) + Window(listing, PageSkip(k, pageSize), pageSize)
  }

  /** The first `n` documents of the listing, or all of them when there are fewer. */
  function Upto(listing: seq<Doc>, n: int): seq<Doc> {
    if n <= 0 then [] else if n <= |listing| then listing[..n] else listing
  }

  /** A window starting where a prefix ends extends that prefix by `limit` documents. */
  lemma WindowExtends(listing: seq<Doc>, skip: nat, limit: nat)
    ensures Upto(listing, skip) + Window(listing, skip, limit) == Upto(listing, skip + limit)
  {
    if skip < |listing| {
      var end := if skip + limit <= |listing| then skip + limit else |listing|;
      assert listing[..skip] + listing[skip..end] == listing[..end];
      assert end == |listing| ==> listing[..end] == listing;
    }
  }

  /** Page `k + 1` starts one page size after page `k`. */
  lemma NextPageSkip(k: nat, pageSize: int)
    requires k >= 1 && pageSize >= 1
    ensures PageSkip(k + 1, pageSize) == PageSkip(k, pageSize) + pageSize
  {
  }

  /** The inductive step of `PagesTile`. */
  lemma NextPage(listing: seq<Doc>, pageSize: int, k: nat)
    requires pageSize >= 1 && k >= 1
    requires Pages(listing, pageSize, k - 1) == Upto(listing, PageSkip(k, pageSize))
    ensures Pages(listing, pageSize, k) == Upto(listing, PageSkip(k + 1, pageSize))
  {
    var skip := PageSkip(k, pageSize);
    WindowExtends(listing, skip, pageSize);
    NextPageSkip(k, pageSize);
  }

  /**
   * Consecutive pages neither skip nor repeat a document: the first `k`
   * pages are exactly the documents before the start of page `k + 1`.
   */
  lemma {:induction false} PagesTile(listing: seq<Doc>, pageSize: int, k: nat)
    requires pageSize >= 1
    ensures Pages(listing, pageSize, k) == Upto(listing, PageSkip(k + 1, pageSize))
  {
    if k > 0 {
      PagesTile(listing, pageSize, k - 1);
      NextPage(listing, pageSize, k);
    }
  }

  /** Documents whose `metadata.categories` holds `category`, in order: `{"metadata.categories": {"$in": [category]}}`. */
  function WithCategory(listing: seq<Doc>, category: string): (r: seq<Doc>)
    ensures forall d | d in r :: d in listing && MetadataCategories(d).Some? && category in MetadataCategories(d).value
    ensures forall d | d in listing && MetadataCategories(d).Some? && category in MetadataCategories(d).value :: d in r
  {
    if listing == [] then []
    else
      var d := listing[0];
      (if MetadataCategories(d).Some? && category in MetadataCategories(d).value then [d] else [])
        + WithCategory(listing[1..], category)
  }

  /** `result and result.get("deletedCount", 0) > 0`; `None` and an empty dictionary are falsy. */
  function DeleteSucceeded(result: Option<map<string, int>>): (ok: bool)
    ensures ok <==> result.Some? && "deletedCount" in result.value && result.value["deletedCount"] > 0
  {
    result.Some? && result.value != map[] && (if "deletedCount" in result.value then result.value["deletedCount"] else 0) > 0
  }

  /**
   * `listing` enumerates the collection `docs`: each stored document exactly
   * once, each listed document being the one stored under its `_id`.
   */
  ghost predicate Lists(listing: seq<Doc>, docs: map<string, Doc>) {
    && (forall i | 0 <= i < |listing| :: listing[i].id.Some? && listing[i].id.value in docs && docs[listing[i].id.value] == listing[i])
    && (forall i, j | 0 <= i < j < |listing| :: listing[i].id != listing[j].id)
    && (forall k | k in docs :: exists i | 0 <= i < |listing| :: listing[i].id == Some(k))
  }

  /** Every stored document appears in an enumeration of its collection. */
  lemma StoredIsListed(listing: seq<Doc>, docs: map<string, Doc>, k: string)
    requires Lists(listing, docs) && k in docs
    ensures docs[k] in listing
  {
    var i :| 0 <= i < |listing| && listing[i].id == Some(k);
    assert docs[k] == listing[i];
  }

  /** An enumeration is empty exactly when its collection is. */
  lemma ListsEmpty(listing: seq<Doc>, docs: map<string, Doc>)
    requires Lists(listing, docs)
    ensures listing == [] <==> docs == map[]
  {
    if docs != map[] {
      var k :| k in docs;
      StoredIsListed(listing, docs, k);
    }
    if listing != [] {
      assert listing[0].id.value in docs;
    }
  }

  /**
   * `DatabaseService`. `fault` stands for an exception raised by the vector
   * database itself; the caller supplies the fresh `uuid4` id and the clock.
   */
  class DatabaseService {
    var collections: map<Collection, map<string, Doc>>

    /** All three collections exist and every document is stored under its own `_id`. */
    ghost predicate Valid()
      reads this
    {
      && Thoughts in collections && Game in collections && Chat in collections
      && forall c, k | c in collections && k in collections[c] :: collections[c][k].id == Some(k)
    }

    constructor ()
      ensures Valid()
      ensures collections == map[Thoughts := map[], Game := map[], Chat := map[]]
    {
      collections := map[Thoughts := map[], Game := map[], Chat := map[]];
    }

    /**
     * `store_entry`: inserts `{"_id": entryId, "text": text, "metadata": ...}`
     * and returns `entryId`, or returns `None` and inserts nothing when the
     * text is empty, the collection name is unknown, or the insert fails (the
     * store refuses an `_id` it already holds).
     */
    method StoreEntry(collectionName: string, text: string, metadata: Option<Metadata>,
                      categories: Option<seq<string>>, entryId: string, now: string, fault: bool)
      returns (id: Option<string>)
      requires Valid()
      modifies this
      ensures Valid()
      ensures text == "" ==> id == None
      ensures id.Some? <==>
        && text != ""
        && CollectionByName(collectionName).Some?
        && !fault
        && entryId !in old(collections)[CollectionByName(collectionName).value]
      ensures id.Some? ==>
        var c := CollectionByName(collectionName).value;
        && id.value == entryId
        && collections == old(collections)[c := old(collections)[c][entryId := NewDocument(entryId, text, ShapeMetadata(metadata, text, now, categories))]]
      ensures id.None? ==> collections == old(collections)
      ensures CollectionByName(collectionName).Some? ==>
        collections == AfterStore(old(collections), CollectionByName(collectionName).value, text, metadata, categories, entryId, now, fault)
    {
      if text == "" {
        return None;
      }
      var c := CollectionByName(collectionName);
      if c.None? || fault || entryId in collections[c.value] {
        return None;
      }
      var doc := NewDocument(entryId, text, ShapeMetadata(metadata, text, now, categories));
      collections := collections[c.value := collections[c.value][entryId := doc]];
      id := Some(entryId);
    }

    /** `delete_entry`: true exactly when a document with that `_id` was removed. */
    method DeleteEntry(collectionName: string, entryId: string, fault: bool) returns (deleted: bool)
      requires Valid()
      modifies this
      ensures Valid()
      ensures deleted <==>
        && CollectionByName(collectionName).Some?
        && !fault
        && entryId in old(collections)[CollectionByName(collectionName).value]
      ensures deleted ==>
        var c := CollectionByName(collectionName).value;
        collections == old(collections)[c := old(collections)[c] - {entryId}]
      ensures !deleted ==> collections == old(collections)
    {
      var c := CollectionByName(collectionName);
      if c.None? || fault {
        return false;
      }
      var count := 0;
      if entryId in collections[c.value] {
        collections := collections[c.value := collections[c.value] - {entryId}];
        count := 1;
      }
      deleted := DeleteSucceeded(Some(map["deletedCount" := count]));
    }

    /**
     * `get_all_entries`: one page of the collection, `listing` being the order
     * in which the store enumerates it.
     */
    method GetAllEntries(collectionName: string, page: int, pageSize: int, listing: seq<Doc>, fault: bool)
      returns (entries: seq<Doc>)
      requires Valid()
      requires page >= 1 && pageSize >= 1
      requires CollectionByName(collectionName).Some? ==> Lists(listing, collections[CollectionByName(collectionName).value])
      ensures CollectionByName(collectionName).None? || fault ==> entries == []
      ensures CollectionByName(collectionName).Some? && !fault ==> entries == Window(listing, PageSkip(page, pageSize), pageSize)
      ensures |entries| <= pageSize
      ensures forall d | d in entries ::
        d.id.Some? && d.id.value in collections[CollectionByName(collectionName).value]
    {
      var c := CollectionByName(collectionName);
      if c.None? || fault {
        return [];
      }
      var skip := PageSkip(page, pageSize);
      entries := Window(listing, skip, pageSize);
      assert forall d | d in entries :: d in listing;
    }

    /** `search_by_category`: the first `limit` documents tagged with `category`. */
    method SearchByCategory(collectionName: string, category: string, limit: int, listing: seq<Doc>, fault: bool)
      returns (entries: seq<Doc>)
      requires Valid()
      requires limit >= 1
      requires CollectionByName(collectionName).Some? ==> Lists(listing, collections[CollectionByName(collectionName).value])
      ensures CollectionByName(collectionName).None? || fault ==> entries == []
      ensures CollectionByName(collectionName).Some? && !fault ==> entries == Window(WithCategory(listing, category), 0, limit)
      ensures forall d | d in entries :: MetadataCategories(d).Some? && category in MetadataCategories(d).value
      ensures forall d | d in entries ::
        d.id.Some? && d.id.value in collections[CollectionByName(collectionName).value]
      ensures CollectionByName(collectionName).Some? && !fault && |entries| < limit ==>
        var docs := collections[CollectionByName(collectionName).value];
        forall k | k in docs && MetadataCategories(docs[k]).Some? && category in MetadataCategories(docs[k]).value ::
          docs[k] in entries
    {
      var c := CollectionByName(collectionName);
      if c.None? || fault {
        return [];
      }
      var tagged := WithCategory(listing, category);
      entries := Window(tagged, 0, limit);
      assert forall d | d in entries :: d in tagged;
      if |entries| < limit {
        assert entries == tagged;
        forall k | k in collections[c.value] && MetadataCategories(collections[c.value][k]).Some?
                   && category in MetadataCategories(collections[c.value][k]).value
          ensures collections[c.value][k] in entries
        {
          StoredIsListed(listing, collections[c.value], k);
        }
      }
    }
  }
}
