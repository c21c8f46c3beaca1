/**
 * Stored documents and the pure operations the document store performs on one collection:
 * matching a filter, deleting the first match, and selecting by `name`.
 */
module Documents {
  import opened Wrappers

  /** A BSON value. */
  datatype Value =
    | Null
    | Bool(b: bool)
    | Int(i: int)
    | Str(s: string)
    | Array(items: seq<Value>)
    | Object(members: map<string, Value>)

  datatype Document = Document(fields: map<string, Value>)

  /** The value of the `name` field, `None` when the document has none. */
  function NameOf(d: Document): Option<Value> {
    if "name" in d.fields then Some(d.fields["name"]) else None
  }

  predicate AllNamed(s: seq<Document>) {
    forall i :: 0 <= i < |s| ==> NameOf(s[i]).Some?
  }

  /** The document has every filter field with an equal value: the fields are combined with AND. */
  predicate Matches(d: Document, filter: map<string, Value>) {
    forall f :: f in filter ==> f in d.fields && d.fields[f] == filter[f]
  }

  /** The filter `{name: n}`. */
  function NameFilter(n: string): (filter: map<string, Value>)
    ensures forall d :: Matches(d, filter) <==> NameOf(d) == Some(Str(n))
  {
    map["name" := Str(n)]
  }

  /** The index of the first document that matches `filter`, or `|s|` when none does. */
  function FirstMatch(s: seq<Document>, filter: map<string, Value>): (i: nat)
    ensures i <= |s|
    ensures i < |s| ==> Matches(s[i], filter)
    ensures forall j :: 0 <= j < i ==> !Matches(s[j], filter)
  {
    if s == [] || Matches(s[0], filter) then 0 else 1 + FirstMatch(s[1..], filter)
  }

  /** `DeleteOne`: the collection without its first document that matches `filter`. */
  function RemoveFirst(s: seq<Document>, filter: map<string, Value>): (r: seq<Document>)
    ensures FirstMatch(s, filter) == |s| ==> r == s
    ensures FirstMatch(s, filter) < |s| ==> r == s[..FirstMatch(s, filter)] + s[FirstMatch(s, filter) + 1..]
  {
    if s == [] then []
    else if Matches(s[0], filter) then s[1..]
    else
      SpliceCons(s, FirstMatch(s[1..], filter));
      [s[0]] + RemoveFirst(s[1..], filter)
  }

  /** Putting the head back in front of a tail spliced at `k` splices the whole sequence at `k + 1`. */
  lemma SpliceCons<T>(s: seq<T>, k: nat)
    requires 0 < |s| && k < |s|
    ensures k + 1 < |s| ==> [s[0]] + (s[1..][..k] + s[1..][k + 1..]) == s[..k + 1] + s[k + 2..]
    ensures k + 1 == |s| ==> [s[0]] + s[1..] == s
  {
    if k + 1 < |s| {
      assert s[1..][..k] == s[1..k + 1];
      assert s[1..][k + 1..] == s[k + 2..];
      assert [s[0]] + s[1..k + 1] == s[..k + 1];
    }
  }

  /** The documents whose `name` is `v`, in collection order. */
  function WithName(s: seq<Document>, v: Value): (r: seq<Document>)
    ensures |r| <= |s|
    ensures forall i :: 0 <= i < |r| ==> NameOf(r[i]) == Some(v)
  {
    if s == [] then []
    else (if NameOf(s[0]) == Some(v) then [s[0]] else []) + WithName(s[1..], v)
  }

  /** The documents whose `name` is not `v` (or that have none), in collection order. */
  function WithoutName(s: seq<Document>, v: Value): (r: seq<Document>)
    ensures |r| <= |s|
    ensures forall i :: 0 <= i < |r| ==> NameOf(r[i]) != Some(v)
  {
    if s == [] then []
    else (if NameOf(s[0]) != Some(v) then [s[0]] else []) + WithoutName(s[1..], v)
  }

  /** `WithName` keeps every document with that name. */
  lemma {:induction false} WithNameComplete(s: seq<Document>, i: nat, v: Value)
    requires i < |s| && NameOf(s[i]) == Some(v)
    ensures s[i] in WithName(s, v)
  {
    if i > 0 {
      WithNameComplete(s[1..], i - 1, v);
    }
  }

  /** At most one document per `name` value. */
  ghost predicate UniqueNames(s: seq<Document>) {
    forall v :: |WithName(s, v)| <= 1
  }

  function Tail(s: seq<Document>): seq<Document> {
    if s == [] then [] else s[1..]
  }

  /** Deleting the first document named `n` drops the first of those. */
  lemma {:induction false} RemoveFirstWithName(s: seq<Document>, n: string)
    ensures WithName(RemoveFirst(s, NameFilter(n)), Str(n)) == Tail(WithName(s, Str(n)))
  {
    if s != [] {
      RemoveFirstWithName(s[1..], n);
      if !Matches(s[0], NameFilter(n)) {
        var r := [s[0]] + RemoveFirst(s[1..], NameFilter(n));
        assert r[0] == s[0] && r[1..] == RemoveFirst(s[1..], NameFilter(n));
        calc {
          WithName(r, Str(n));
          WithName(r[1..], Str(n));
          Tail(WithName(s[1..], Str(n)));
        }
      }
    }
  }

  /** Deleting the first document named `n` keeps every document with another name, in order. */
  lemma {:induction false} RemoveFirstWithoutName(s: seq<Document>, n: string)
    ensures WithoutName(RemoveFirst(s, NameFilter(n)), Str(n)) == WithoutName(s, Str(n))
  {
    if s != [] {
      RemoveFirstWithoutName(s[1..], n);
      if !Matches(s[0], NameFilter(n)) {
        var r := [s[0]] + RemoveFirst(s[1..], NameFilter(n));
        assert r[0] == s[0] && r[1..] == RemoveFirst(s[1..], NameFilter(n));
      }
    }
  }

  /** Deleting the first document named `n` removes exactly that one document. */
  lemma {:induction false} RemoveFirstMultiset(s: seq<Document>, n: string)
    requires WithName(s, Str(n)) != []
    ensures multiset(s) == multiset(RemoveFirst(s, NameFilter(n))) + multiset{WithName(s, Str(n))[0]}
  {
    assert s == [s[0]] + s[1..];
    if !Matches(s[0], NameFilter(n)) {
      RemoveFirstMultiset(s[1..], n);
    }
  }

  /** Deleting the first document named `n` leaves every other name's documents as they were. */
  lemma {:induction false} RemoveFirstOtherName(s: seq<Document>, n: string, v: Value)
    requires v != Str(n)
    ensures WithName(RemoveFirst(s, NameFilter(n)), v) == WithName(s, v)
  {
    if s != [] {
      RemoveFirstOtherName(s[1..], n, v);
      if !Matches(s[0], NameFilter(n)) {
        var r := [s[0]] + RemoveFirst(s[1..], NameFilter(n));
        assert r[0] == s[0] && r[1..] == RemoveFirst(s[1..], NameFilter(n));
      }
    }
  }

  /** Appending a document adds it at the end of its own name's documents only. */
  lemma {:induction false} WithNameAppend(s: seq<Document>, d: Document, v: Value)
    ensures WithName(s + [d], v) == WithName(s, v) + (if NameOf(d) == Some(v) then [d] else [])
  {
    var tail := if NameOf(d) == Some(v) then [d] else [];
    if s == [] {
      assert [] + [d] == [d];
      assert WithName([d], v) == tail + WithName([d][1..], v);
    } else {
      WithNameAppend(s[1..], d, v);
      var head := if NameOf(s[0]) == Some(v) then [s[0]] else [];
      assert (s + [d])[0] == s[0] && (s + [d])[1..] == s[1..] + [d];
      calc {
        WithName(s + [d], v);
        head + WithName(s[1..] + [d], v);
        head + (WithName(s[1..], v) + tail);
        (head + WithName(s[1..], v)) + tail;
        WithName(s, v) + tail;
      }
    }
  }

  /** Appending a document named `v` leaves the documents with other names as they were. */
  lemma {:induction false} WithoutNameAppend(s: seq<Document>, d: Document, v: Value)
    requires NameOf(d) == Some(v)
    ensures WithoutName(s + [d], v) == WithoutName(s, v)
  {
    if s == [] {
      assert [] + [d] == [d];
      assert [d][1..] == [];
    } else {
      WithoutNameAppend(s[1..], d, v);
      assert (s + [d])[0] == s[0] && (s + [d])[1..] == s[1..] + [d];
    }
  }
}
