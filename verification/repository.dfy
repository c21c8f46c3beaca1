/**
 * An in-memory stand-in for the MongoDB database behind `BaseRepository` and `UserStatusRepository`:
 * named collections, each a sequence of documents in store order.
 */
module Repository {
  import opened Documents

  class DocumentDatabase {
    var collections: map<string, seq<Document>>

    constructor ()
      ensures collections == map[]
    {
      collections := map[];
    }

    /** The documents of a collection; a collection never written to reads as empty. */
    function Contents(collectionName: string): seq<Document>
      reads this
    {
      if collectionName in collections then collections[collectionName] else []
    }

    /** `Get`: every document of the collection, in store order. */
    method Get(collectionName: string) returns (documents: seq<Document>)
      ensures documents == Contents(collectionName)
    {
      documents := Contents(collectionName);
    }

    /** `DeleteEntry`: deletes the first document that has every filter field with an equal value. */
    method DeleteEntry(collectionName: string, filterFields: map<string, Value>)
      modifies this
      ensures collectionName in old(collections) ==>
                collections == old(collections)[collectionName := RemoveFirst(old(collections)[collectionName], filterFields)]
      ensures collectionName !in old(collections) ==> collections == old(collections)
    {
      if collectionName in collections {
        collections := collections[collectionName := RemoveFirst(collections[collectionName], filterFields)];
      }
    }

    /** `Insert`: appends the document to the collection, creating the collection if needed. */
    method Insert(collectionName: string, document: Document)
      modifies this
      ensures collections == old(collections)[collectionName := old(Contents(collectionName)) + [document]]
    {
      collections := collections[collectionName := Contents(collectionName) + [document]];
    }

    /** `UserStatusRepository.GetPlayerDataByName`: the documents whose `name` is `playerName`, in store order. */
    method GetPlayerDataByName(playerName: string, collectionName: string) returns (documents: seq<Document>)
      ensures documents == WithName(Contents(collectionName), Str(playerName))
    {
      documents := WithName(Contents(collectionName), Str(playerName));
    }
  }
}
