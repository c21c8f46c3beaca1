/**
 * The synchronisation engine and read projections of `UserStatusService`: `AddUserData` upserts a
 * document by exact `name`, `DeleteUserData` deletes one, and two queries read documents back.
 */
module Services {
  import opened Wrappers
  import opened Documents
  import opened Repository
  import opened ProfileNormalizer

  /** The exceptions the synchronisation engine throws before it writes anything. */
  datatype SyncFault =
    | MissingName    // the BSON indexer found no `name` field
    | NameNotString  // `AsString` on a matching `name` that is not a string

  /**
   * `collection.Any(item => item["name"] == document["name"])`: stops at the first document with an
   * equal name; reading `name` throws on the first document (or on `document`) that has none.
   * On an empty collection the predicate is never evaluated.
   */
  function NameScan(collection: seq<Document>, document: Document): (r: Result<bool, SyncFault>)
    ensures r == Success(true) ==>
              NameOf(document).Some? && WithName(collection, NameOf(document).value) != []
    ensures r == Success(false) ==>
              collection == [] || (NameOf(document).Some? && WithName(collection, NameOf(document).value) == [])
    ensures r.Failure? ==>
              r.error == MissingName && collection != [] && (NameOf(document).None? || !AllNamed(collection))
    ensures AllNamed(collection) && (collection == [] || NameOf(document).Some?) ==> r.Success?
  {
    if collection == [] then Success(false)
    else if NameOf(collection[0]).None? || NameOf(document).None? then Failure(MissingName)
    else if NameOf(collection[0]) == NameOf(document) then Success(true)
    else
      var r := NameScan(collection[1..], document);
      assert AllNamed(collection) ==> AllNamed(collection[1..]) by {
        if AllNamed(collection) {
          forall i | 0 <= i < |collection[1..]| ensures NameOf(collection[1..][i]).Some? {
            assert collection[1..][i] == collection[i + 1];
          }
        }
      }
      r
  }

  /** The collection after `AddUserData`, or the exception it throws before writing. */
  function AddResult(collection: seq<Document>, document: Document): (r: Result<seq<Document>, SyncFault>)
    ensures r.Success? ==> |r.value| > 0 && r.value[|r.value| - 1] == document
  {
    match NameScan(collection, document)
    case Failure(e) => Failure(e)
    case Success(found) =>
      if !found then Success(collection + [document])
      else if NameOf(document).value.Str? then
        Success(RemoveFirst(collection, NameFilter(NameOf(document).value.s)) + [document])
      else Failure(NameNotString)
  }

  /** The collection after `DeleteUserData`, or the exception it throws before writing. */
  function DeleteResult(collection: seq<Document>, document: Document): (r: Result<seq<Document>, SyncFault>)
    ensures r.Success? ==> |r.value| <= |collection|
  {
    match NameScan(collection, document)
    case Failure(e) => Failure(e)
    case Success(found) =>
      if !found then Success(collection)
      else if NameOf(document).value.Str? then
        Success(RemoveFirst(collection, NameFilter(NameOf(document).value.s)))
      else Failure(NameNotString)
  }

  // ---------------------------------------------------------------- properties of the synchronisation

  /**
   * `AddUserData` on a collection whose documents all have a `name`, for a document named `n`: it
   * succeeds; if some document is named `n`, the first such one is deleted and the new one appended,
   * otherwise the new one is appended.
   */
  lemma AddUserDataUpserts(collection: seq<Document>, document: Document, n: string)
    requires AllNamed(collection) && NameOf(document) == Some(Str(n))
    ensures AddResult(collection, document).Success?
    ensures WithName(collection, Str(n)) != [] ==>
              AddResult(collection, document).value == RemoveFirst(collection, NameFilter(n)) + [document]
    ensures WithName(collection, Str(n)) == [] ==>
              AddResult(collection, document).value == collection + [document]
  {
  }

  /** A successful `AddUserData` leaves the documents with every other name as they were, in order. */
  lemma {:induction false} AddUserDataKeepsOthers(collection: seq<Document>, document: Document, v: Value)
    requires AddResult(collection, document).Success? && NameOf(document) == Some(v)
    ensures WithoutName(AddResult(collection, document).value, v) == WithoutName(collection, v)
    ensures forall w :: w != v ==> WithName(AddResult(collection, document).value, w) == WithName(collection, w)
  {
    var after := AddResult(collection, document).value;
    var kept := after[..|after| - 1];
    assert after == kept + [document];
    WithoutNameAppend(kept, document, v);
    if NameScan(collection, document) == Success(true) {
      RemoveFirstWithoutName(collection, v.s);
    }
    forall w | w != v ensures WithName(after, w) == WithName(collection, w) {
      WithNameAppend(kept, document, w);
      if NameScan(collection, document) == Success(true) {
        RemoveFirstOtherName(collection, v.s, w);
      }
    }
  }

  /**
   * If the collection held at most one document per name, a successful `AddUserData` leaves exactly
   * one document with the new document's name, the new document itself, and still at most one per name.
   */
  lemma {:induction false} AddUserDataUnique(collection: seq<Document>, document: Document, v: Value)
    requires AddResult(collection, document).Success? && NameOf(document) == Some(v)
    requires UniqueNames(collection)
    ensures WithName(AddResult(collection, document).value, v) == [document]
    ensures UniqueNames(AddResult(collection, document).value)
  {
    var after := AddResult(collection, document).value;
    var kept := after[..|after| - 1];
    assert after == kept + [document];
    WithNameAppend(kept, document, v);
    assert |WithName(collection, v)| <= 1;
    if NameScan(collection, document) == Success(true) {
      RemoveFirstWithName(collection, v.s);
    }
    assert WithName(kept, v) == [];
    AddUserDataKeepsOthers(collection, document, v);
    forall w ensures |WithName(after, w)| <= 1 {
      assert |WithName(collection, w)| <= 1;
    }
  }

  /** `AddUserData` keeps every stored document named. */
  lemma AddUserDataKeepsAllNamed(collection: seq<Document>, document: Document)
    requires AllNamed(collection) && NameOf(document).Some?
    requires AddResult(collection, document).Success?
    ensures AllNamed(AddResult(collection, document).value)
  {
    var after := AddResult(collection, document).value;
    var found := NameScan(collection, document) == Success(true);
    if found {
      RemoveFirstMultiset(collection, NameOf(document).value.s);
    }
    forall i | 0 <= i < |after| - 1 ensures NameOf(after[i]).Some? {
      assert after[i] in multiset(after[..|after| - 1]);
      assert after[i] in multiset(collection);
      var j :| 0 <= j < |collection| && collection[j] == after[i];
    }
  }

  /**
   * Two ingestions in a row for the same name leave exactly one document with that name, the second
   * one, and the documents with other names as they were.
   */
  lemma AddUserDataTwice(collection: seq<Document>, first: Document, second: Document, n: string)
    requires AllNamed(collection) && UniqueNames(collection)
    requires NameOf(first) == Some(Str(n)) && NameOf(second) == Some(Str(n))
    ensures AddResult(collection, first).Success?
    ensures var middle := AddResult(collection, first).value;
            && AddResult(middle, second).Success?
            && WithName(AddResult(middle, second).value, Str(n)) == [second]
            && WithoutName(AddResult(middle, second).value, Str(n)) == WithoutName(collection, Str(n))
  {
    AddUserDataUpserts(collection, first, n);
    var middle := AddResult(collection, first).value;
    AddUserDataKeepsAllNamed(collection, first);
    AddUserDataUnique(collection, first, Str(n));
    AddUserDataKeepsOthers(collection, first, Str(n));
    AddUserDataUpserts(middle, second, n);
    AddUserDataUnique(middle, second, Str(n));
    AddUserDataKeepsOthers(middle, second, Str(n));
  }

  /** `DeleteUserData` with no document of that name is a no-op and throws nothing. */
  lemma DeleteUserDataNoMatch(collection: seq<Document>, document: Document)
    requires AllNamed(collection) && NameOf(document).Some?
    requires WithName(collection, NameOf(document).value) == []
    ensures DeleteResult(collection, document) == Success(collection)
  {
  }

  /**
   * `DeleteUserData` with a document named `n` present removes exactly one document named `n`, the
   * first, and changes nothing else; with at most one per name, none named `n` is left.
   */
  lemma DeleteUserDataRemovesOne(collection: seq<Document>, document: Document, n: string)
    requires AllNamed(collection) && NameOf(document) == Some(Str(n))
    requires WithName(collection, Str(n)) != []
    ensures DeleteResult(collection, document).Success?
    ensures var after := DeleteResult(collection, document).value;
            && after == RemoveFirst(collection, NameFilter(n))
            && |after| == |collection| - 1
            && multiset(collection) == multiset(after) + multiset{WithName(collection, Str(n))[0]}
            && WithName(after, Str(n)) == WithName(collection, Str(n))[1..]
            && WithoutName(after, Str(n)) == WithoutName(collection, Str(n))
            && (UniqueNames(collection) ==> WithName(after, Str(n)) == [])
  {
    RemoveFirstMultiset(collection, n);
    RemoveFirstWithName(collection, n);
    RemoveFirstWithoutName(collection, n);
    if UniqueNames(collection) {
      assert |WithName(collection, Str(n))| <= 1;
    }
  }

  /** `DeleteUserData` keeps the at-most-one-document-per-name invariant. */
  lemma DeleteUserDataKeepsUnique(collection: seq<Document>, document: Document, n: string)
    requires AllNamed(collection) && NameOf(document) == Some(Str(n)) && UniqueNames(collection)
    ensures DeleteResult(collection, document).Success?
    ensures UniqueNames(DeleteResult(collection, document).value)
  {
    if WithName(collection, Str(n)) == [] {
      DeleteUserDataNoMatch(collection, document);
    } else {
      DeleteUserDataRemovesOne(collection, document, n);
      var after := DeleteResult(collection, document).value;
      assert after == RemoveFirst(collection, NameFilter(n));
      forall v ensures |WithName(after, v)| <= 1 {
        if v != Str(n) {
          RemoveFirstOtherName(collection, n, v);
        }
      }
    }
  }

  /** Names differing only in case are different keys: ingesting both keeps both documents. */
  lemma CaseVariantsStayDistinct(upper: Document, lower: Document)
    requires NameOf(upper) == Some(Str("Guilherme")) && NameOf(lower) == Some(Str("guilherme"))
    ensures AddResult([], upper) == Success([upper])
    ensures AddResult([upper], lower) == Success([upper, lower])
  {
    assert NameScan([], upper) == Success(false);
    assert [] + [upper] == [upper];
    assert Str("Guilherme") != Str("guilherme") by {
      assert "Guilherme"[0] != "guilherme"[0];
    }
    assert NameScan([upper][1..], lower) == Success(false);
    assert NameScan([upper], lower) == Success(false);
    assert [upper] + [lower] == [upper, lower];
  }

  /**
   * The whole ingestion: a payload that normalises to a named profile, stored with `AddUserData`,
   * is afterwards the one document a lookup by that exact name returns.
   */
  lemma IngestThenFetch(payload: RawProfile, collection: seq<Document>, n: string)
    requires GetUserInfo(payload).Success? && payload.name == Present(n)
    requires AllNamed(collection) && UniqueNames(collection)
    ensures var document := ToDocument(GetUserInfo(payload).value);
            && AddResult(collection, document).Success?
            && WithName(AddResult(collection, document).value, Str(n)) == [document]
  {
    NameAndScalarsCopied(payload);
    var document := ToDocument(GetUserInfo(payload).value);
    AddUserDataUpserts(collection, document, n);
    AddUserDataUnique(collection, document, Str(n));
  }

  // ---------------------------------------------------------------- the canonical record as a document

  function StrOrNull(o: Option<string>): Value { if o.Some? then Str(o.value) else Null }

  function IntOrNull(o: Option<int>): Value { if o.Some? then Int(o.value) else Null }

  function BoolOrNull(o: Option<bool>): Value { if o.Some? then Bool(o.value) else Null }

  function SkillObject(s: Skill): Value {
    Object(map["id" := Int(s.id), "skillName" := StrOrNull(s.skillName), "level" := IntOrNull(s.level),
               "xp" := Int(s.xp), "rank" := IntOrNull(s.rank)])
  }

  function ActivityObject(a: Activity): Value {
    Object(map["date" := StrOrNull(a.date), "details" := StrOrNull(a.details), "text" := StrOrNull(a.text)])
  }

  /** The document `AddUserData` stores for a canonical profile; its `name` is the profile's name or null. */
  function ToDocument(p: Profile): (d: Document)
    ensures NameOf(d) == Some(StrOrNull(p.name))
  {
    Document(map[
      "lowercaseName" := StrOrNull(p.lowercaseName),
      "name" := StrOrNull(p.name),
      "rank" := IntOrNull(p.rank),
      "loggedIn" := BoolOrNull(p.loggedIn),
      "combatlevel" := IntOrNull(p.combatlevel),
      "totalskill" := IntOrNull(p.totalskill),
      "questsstarted" := IntOrNull(p.questsstarted),
      "questscomplete" := IntOrNull(p.questscomplete),
      "questsnotstarted" := IntOrNull(p.questsnotstarted),
      "totalxp" := IntOrNull(p.totalxp),
      "skill_values" := Array(seq(|p.skillValues|, i requires 0 <= i < |p.skillValues| => SkillObject(p.skillValues[i]))),
      "activities" := Array(seq(|p.activities|, i requires 0 <= i < |p.activities| => ActivityObject(p.activities[i])))])
  }

  // ---------------------------------------------------------------- the service

  /**
   * The read projection: one output object per stored document, in the order the store returns them.
   * Rendering a document and parsing it back is taken to give the same document.
   */
  method ToObjects(list: seq<Document>) returns (objectList: seq<Document>)
    ensures |objectList| == |list|
    ensures forall i :: 0 <= i < |list| ==> objectList[i] == list[i]
  {
    objectList := [];
    for i := 0 to |list|
      invariant |objectList| == i
      invariant forall k :: 0 <= k < i ==> objectList[k] == list[k]
    {
      objectList := objectList + [list[i]];
    }
  }

  class UserStatusService {
    const baseRepository: DocumentDatabase

    constructor (baseRepository: DocumentDatabase)
      ensures this.baseRepository == baseRepository
    {
      this.baseRepository := baseRepository;
    }

    /** Upsert by exact `name`: scan, delete the first document with that name if there is one, insert. */
    method AddUserData(document: Document, collectionName: string) returns (outcome: Outcome<SyncFault>)
      modifies baseRepository
      ensures match AddResult(old(baseRepository.Contents(collectionName)), document)
              case Success(after) =>
                outcome == Pass && baseRepository.collections == old(baseRepository.collections)[collectionName := after]
              case Failure(e) =>
                outcome == Fail(e) && baseRepository.collections == old(baseRepository.collections)
    {
      var collection := baseRepository.Get(collectionName);
      var scan := NameScan(collection, document);
      if scan.Failure? {
        return Fail(scan.error);
      }
      if scan.value {
        var name := NameOf(document).value;
        if !name.Str? {
          return Fail(NameNotString);
        }
        baseRepository.DeleteEntry(collectionName, NameFilter(name.s));
      }
      baseRepository.Insert(collectionName, document);
      return Pass;
    }

    /** The scan and conditional delete of `AddUserData`, without the insert. */
    method DeleteUserData(document: Document, collectionName: string) returns (outcome: Outcome<SyncFault>)
      modifies baseRepository
      ensures match DeleteResult(old(baseRepository.Contents(collectionName)), document)
              case Success(after) =>
                && outcome == Pass
                && baseRepository.Contents(collectionName) == after
                && forall c :: c != collectionName ==> baseRepository.Contents(c) == old(baseRepository.Contents(c))
              case Failure(e) =>
                outcome == Fail(e) && baseRepository.collections == old(baseRepository.collections)
    {
      var collection := baseRepository.Get(collectionName);
      var scan := NameScan(collection, document);
      if scan.Failure? {
        return Fail(scan.error);
      }
      if scan.value {
        var name := NameOf(document).value;
        if !name.Str? {
          return Fail(NameNotString);
        }
        baseRepository.DeleteEntry(collectionName, NameFilter(name.s));
      }
      return Pass;
    }

    /** The documents named `playerName`, one output object per document, in store order. */
    method GetPlayerDataByName(playerName: string, collectionName: string) returns (objectList: seq<Document>)
      ensures objectList == WithName(baseRepository.Contents(collectionName), Str(playerName))
    {
      var list := baseRepository.GetPlayerDataByName(playerName, collectionName);
      objectList := ToObjects(list);
    }

    /** Every document of the collection, one output object per document, in store order. */
    method GetAllPlayerData(collectionName: string) returns (objectList: seq<Document>)
      ensures objectList == baseRepository.Contents(collectionName)
    {
      var list := baseRepository.Get(collectionName);
      objectList := ToObjects(list);
    }
  }
}
