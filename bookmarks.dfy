/**
 * The in-memory bookmark table and the three handlers that work on it: POST `/bookmarks`
 * appends a record, GET `/bookmarks/:id` looks one up, DELETE `/bookmarks/:id` splices
 * one out. Every handler answers with a status and a JSON body.
 */
module BookmarkRouter {
  import opened Wrappers
  import opened Http
  import opened Numbers

  /** One stored record. The text and rating fields keep whatever JSON value the client sent. */
  datatype Bookmark = Bookmark(id: int, title: Json, url: Json, rating: Json, desc: Json)

  /** The fields the POST handler destructures from the parsed body (`None` when absent). */
  datatype PostBody = PostBody(title: Option<Json>, url: Option<Json>, rating: Option<Json>, desc: Option<Json>)

  /** The record as `res.json` writes it, keys in the order the handler builds them. */
  function ToJson(b: Bookmark): Json {
    JObj([("id", JNum(b.id as real)), ("title", b.title), ("url", b.url), ("rating", b.rating), ("desc", b.desc)])
  }

  function PostFailedBody(): Json {
    ErrorBody("POST failed")
  }

  function NotFoundBody(): Json {
    ErrorBody("Bookmark not found")
  }

  function DeletedBody(idParam: string): Json {
    JObj([("success", JStr("Bookmark " + idParam + " Deleted"))])
  }

  /**
   * What reading `.id` of the missing last element of an empty table throws. Only the
   * error's kind, `TypeError`, is meant; the message text is recent V8's wording and
   * differs between Node versions.
   */
  function NoLastRecordError(): JsError {
    JsError("TypeError", "Cannot read properties of undefined (reading 'id')", [])
  }

  /** The three fields POST insists on are all truthy. */
  predicate PostAccepted(body: PostBody)
    ensures PostAccepted(body) ==> body.title.Some? && body.url.Some? && body.rating.Some?
    ensures body.rating == Some(JNum(0.0)) ==> !PostAccepted(body)
  {
    Truthy(body.title) && Truthy(body.url) && Truthy(body.rating)
  }

  /**
   * POST checks presence only: a zero rating is rejected like a missing one, while any
   * other number, however large or negative, is accepted.
   */
  lemma RatingCheckedForPresenceOnly(title: Json, url: Json, rating: real, desc: Option<Json>)
    requires Truthy(Some(title)) && Truthy(Some(url))
    ensures !PostAccepted(PostBody(Some(title), Some(url), Some(JNum(0.0)), desc))
    ensures rating != 0.0 ==> PostAccepted(PostBody(Some(title), Some(url), Some(JNum(rating)), desc))
  {
  }

  /** The id a new record gets: one more than the id of the last record. */
  function NextId(s: seq<Bookmark>): (id: int)
    requires s != []
    ensures id > s[|s| - 1].id
    ensures IdsIncreasing(s) ==> forall i | 0 <= i < |s| :: s[i].id < id
  {
    // Both branches give the same id; the first only calls the lemma under its precondition.
    if IdsIncreasing(s) then
      IncreasingIdsOrdered(s);
      s[|s| - 1].id + 1
    else
      s[|s| - 1].id + 1
  }

  /**
   * The id of a deleted record is handed out again: deleting the last record, whose id
   * follows its predecessor's, makes the next POST assign that same id.
   */
  lemma IdReusedAfterDeletingLast(s: seq<Bookmark>)
    requires |s| >= 2 && s[|s| - 1].id == s[|s| - 2].id + 1
    ensures NextId(Remove(s, |s| - 1)) == s[|s| - 1].id
  {
    assert Remove(s, |s| - 1)[|s| - 2] == s[|s| - 2];
  }

  /** The record POST stores, with `desc` defaulting to the empty string when the body has none. */
  function NewBookmark(id: int, body: PostBody): (b: Bookmark)
    requires PostAccepted(body)
    ensures b.id == id && Some(b.title) == body.title && Some(b.url) == body.url && Some(b.rating) == body.rating
    ensures b.desc == if body.desc.None? then JStr("") else body.desc.value
  {
    Bookmark(id, body.title.value, body.url.value, body.rating.value,
             if body.desc.None? then JStr("") else body.desc.value)
  }

  /** `bookmark.id === +idParam`. */
  predicate Matches(b: Bookmark, idParam: string)
    ensures ParseId(idParam).None? ==> !Matches(b, idParam)
  {
    ParseId(idParam) == Some(b.id)
  }

  /** The decimal rendering of a record's id, as a client would put it in the path, matches that record. */
  lemma ShowIntMatches(b: Bookmark)
    ensures Matches(b, ShowInt(b.id))
  {
    ParseShowInt(b.id);
  }

  /** The index `find`/`findIndex` stop at: the first record whose id equals the parsed parameter. */
  function FirstMatch(s: seq<Bookmark>, idParam: string): (r: Option<nat>)
    ensures r.Some? ==> r.value < |s| && Matches(s[r.value], idParam)
    ensures r.Some? ==> forall j | 0 <= j < r.value :: !Matches(s[j], idParam)
    ensures r.None? ==> forall j | 0 <= j < |s| :: !Matches(s[j], idParam)
  {
    if s == [] then None
    else if Matches(s[0], idParam) then Some(0)
    else match FirstMatch(s[1..], idParam)
      case None => None
      case Some(k) => Some(k + 1)
  }

  /** `splice(k, 1)`: drop the record at `k`, keeping the others in their order. */
  function Remove(s: seq<Bookmark>, k: nat): (r: seq<Bookmark>)
    requires k < |s|
    ensures |r| == |s| - 1
    ensures forall j | 0 <= j < k :: r[j] == s[j]
    ensures forall j | k <= j < |r| :: r[j] == s[j + 1]
    ensures multiset(r) + multiset{s[k]} == multiset(s)
  {
    assert s == s[..k] + [s[k]] + s[k + 1..];
    s[..k] + s[k + 1..]
  }

  /** Each record's id is larger than the one before it. */
  predicate IdsIncreasing(s: seq<Bookmark>) {
    forall i | 0 < i < |s| :: s[i - 1].id < s[i].id
  }

  /** Increasing neighbours make the ids increasing across the whole table, hence pairwise distinct. */
  lemma {:induction false} IncreasingIdsOrdered(s: seq<Bookmark>)
    requires IdsIncreasing(s)
    ensures forall i, j | 0 <= i < j < |s| :: s[i].id < s[j].id
  {
    if |s| > 1 {
      var t := s[..|s| - 1];
      assert IdsIncreasing(t);
      IncreasingIdsOrdered(t);
      forall i, j | 0 <= i < j < |s| ensures s[i].id < s[j].id {
        if j < |s| - 1 {
          assert s[i] == t[i] && s[j] == t[j];
        } else if i < j - 1 {
          assert s[i] == t[i] && s[j - 1] == t[j - 1];
        }
      }
    }
  }

  /** Appending a record with the next id keeps the ids increasing. */
  lemma AppendKeepsIdsIncreasing(s: seq<Bookmark>, b: Bookmark)
    requires IdsIncreasing(s) && s != [] && b.id == NextId(s)
    ensures IdsIncreasing(s + [b])
  {
  }

  /** Splicing any one record out keeps the ids increasing. */
  lemma RemoveKeepsIdsIncreasing(s: seq<Bookmark>, k: nat)
    requires IdsIncreasing(s) && k < |s|
    ensures IdsIncreasing(Remove(s, k))
  {
  }

  /**
   * With increasing ids, once the first match is deleted nothing else matches: the next GET
   * or DELETE of it finds nothing; a POST in between may hand the id out again
   * (IdReusedAfterDeletingLast).
   */
  lemma DeleteThenNotFound(s: seq<Bookmark>, idParam: string)
    requires IdsIncreasing(s) && FirstMatch(s, idParam).Some?
    ensures FirstMatch(Remove(s, FirstMatch(s, idParam).value), idParam).None?
  {
    IncreasingIdsOrdered(s);
    var k := FirstMatch(s, idParam).value;
    var r := Remove(s, k);
    forall j | 0 <= j < |r| ensures !Matches(r[j], idParam) {
      if j >= k {
        assert s[k].id < s[j + 1].id;
      }
    }
  }

  /** With increasing ids, a GET by the decimal id of a record just appended by POST finds that record. */
  lemma PostThenFound(s: seq<Bookmark>, b: Bookmark)
    requires IdsIncreasing(s) && s != [] && b.id == NextId(s)
    ensures FirstMatch(s + [b], ShowInt(b.id)) == Some(|s|)
  {
    IncreasingIdsOrdered(s);
    ParseShowInt(b.id);
    var t := s + [b];
    forall j | 0 <= j < |s| ensures !Matches(t[j], ShowInt(b.id)) {
      assert t[j] == s[j];
      assert s[j].id <= s[|s| - 1].id;
    }
    assert Matches(t[|s|], ShowInt(b.id));
  }

  /** The table the handlers share. */
  class BookmarkStore {
    var bookmarks: seq<Bookmark>

    constructor (initial: seq<Bookmark>)
      ensures bookmarks == initial
    {
      bookmarks := initial;
    }

    /** `findIndex`: the first index whose record matches, or -1. */
    method FindIndex(idParam: string) returns (k: int)
      ensures -1 <= k < |bookmarks|
      ensures k == -1 <==> FirstMatch(bookmarks, idParam).None?
      ensures k != -1 ==> FirstMatch(bookmarks, idParam) == Some(k)
    {
      k := 0;
      while k < |bookmarks|
        invariant 0 <= k <= |bookmarks|
        invariant forall j | 0 <= j < k :: !Matches(bookmarks[j], idParam)
      {
        if ParseId(idParam) == Some(bookmarks[k].id) {
          return;
        }
        k := k + 1;
      }
      k := -1;
    }

    /** POST `/bookmarks`. */
    method Post(body: PostBody) returns (out: Outcome)
      modifies this
      ensures !PostAccepted(body) ==> out == Reply(400, PostFailedBody()) && bookmarks == old(bookmarks)
      ensures PostAccepted(body) && old(bookmarks) == [] ==>
                out == Raise(NoLastRecordError()) && bookmarks == old(bookmarks)
      ensures PostAccepted(body) && old(bookmarks) != [] ==>
                var b := NewBookmark(NextId(old(bookmarks)), body);
                bookmarks == old(bookmarks) + [b] && out == Reply(201, ToJson(b))
      ensures IdsIncreasing(old(bookmarks)) ==> IdsIncreasing(bookmarks)
    {
      if !Truthy(body.title) {
        return Reply(400, PostFailedBody());
      }
      if !Truthy(body.url) {
        return Reply(400, PostFailedBody());
      }
      if !Truthy(body.rating) {
        return Reply(400, PostFailedBody());
      }
      if |bookmarks| == 0 {
        return Raise(NoLastRecordError());
      }
      var b := NewBookmark(NextId(bookmarks), body);
      if IdsIncreasing(bookmarks) {
        AppendKeepsIdsIncreasing(bookmarks, b);
      }
      bookmarks := bookmarks + [b];
      out := Reply(201, ToJson(b));
    }

    /** GET `/bookmarks/:id`: never changes the table. */
    method GetById(idParam: string) returns (out: Outcome)
      ensures FirstMatch(bookmarks, idParam).None? ==> out == Reply(404, NotFoundBody())
      ensures FirstMatch(bookmarks, idParam).Some? ==>
                out == Reply(200, ToJson(bookmarks[FirstMatch(bookmarks, idParam).value]))
    {
      var k := FindIndex(idParam);
      if k == -1 {
        return Reply(404, NotFoundBody());
      }
      out := Reply(200, ToJson(bookmarks[k]));
    }

    /** DELETE `/bookmarks/:id`. */
    method Delete(idParam: string) returns (out: Outcome)
      modifies this
      ensures FirstMatch(old(bookmarks), idParam).None? ==>
                out == Reply(404, NotFoundBody()) && bookmarks == old(bookmarks)
      ensures FirstMatch(old(bookmarks), idParam).Some? ==>
                bookmarks == Remove(old(bookmarks), FirstMatch(old(bookmarks), idParam).value) &&
                out == Reply(200, DeletedBody(idParam))
      ensures IdsIncreasing(old(bookmarks)) ==> IdsIncreasing(bookmarks)
    {
      var k := FindIndex(idParam);
      if k == -1 {
        return Reply(404, NotFoundBody());
      }
      if IdsIncreasing(bookmarks) {
        RemoveKeepsIdsIncreasing(bookmarks, k);
      }
      bookmarks := Remove(bookmarks, k);
      out := Reply(200, DeletedBody(idParam));
    }
  }
}
