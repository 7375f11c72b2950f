/**
 * The prompt collection and what each of the four API routes does to it,
 * as pure functions of the collection just loaded. An `Outcome` pairs the
 * HTTP response with the collection written back, or None when the route
 * writes nothing.
 */
module Prompts {
  import opened Wrappers
  import opened Json
  import opened Ids

  const NotFoundMessage: string := "Prompt not found"

  datatype Body =
    | Collection(items: seq<Record>)
    | Single(record: Record)
    | Message(text: string)
    | NoContent

  datatype Response = Response(status: int, body: Body)

  datatype Outcome = Outcome(response: Response, written: Option<seq<Record>>)

  const NotFound: Outcome := Outcome(Response(404, Message(NotFoundMessage)), None)

  /**
   * `p.id === promptId`: the path parameter is a string, so a record matches
   * only when it has an `id` key holding that very string.
   */
  predicate Matches(r: Record, id: string): (b: bool)
    ensures b <==> "id" in r && r["id"].Str? && r["id"].s == id
  {
    "id" in r && r["id"] == Str(id)
  }

  ghost predicate NoMatch(s: seq<Record>, id: string) {
    forall j | 0 <= j < |s| :: !Matches(s[j], id)
  }

  /** No two records that carry an `id` carry the same one. */
  ghost predicate UniqueIds(s: seq<Record>) {
    forall i, j | 0 <= i < j < |s| && "id" in s[i] && "id" in s[j] :: s[i]["id"] != s[j]["id"]
  }

  /** `findIndex`: the first position whose record matches, or -1. */
  function FirstIndex(s: seq<Record>, id: string): (i: int)
    ensures -1 <= i < |s|
    ensures i == -1 <==> NoMatch(s, id)
    ensures 0 <= i ==> Matches(s[i], id) && forall j | 0 <= j < i :: !Matches(s[j], id)
  {
    if s == [] then -1
    else if Matches(s[0], id) then 0
    else
      var k := FirstIndex(s[1..], id);
      if k == -1 then -1 else k + 1
  }

  /** `filter(p => p.id !== promptId)`. */
  function Without(s: seq<Record>, id: string): (r: seq<Record>)
    ensures |r| <= |s|
    ensures NoMatch(r, id)
  {
    if s == [] then []
    else if Matches(s[0], id) then Without(s[1..], id)
    else [s[0]] + Without(s[1..], id)
  }

  /** Filtering distributes over concatenation: the kept records stay in their order. */
  lemma {:induction false} WithoutConcat(a: seq<Record>, b: seq<Record>, id: string)
    ensures Without(a + b, id) == Without(a, id) + Without(b, id)
  {
    if a != [] {
      assert (a + b)[0] == a[0];
      assert (a + b)[1..] == a[1..] + b;
      WithoutConcat(a[1..], b, id);
      if !Matches(a[0], id) {
        calc {
          Without(a + b, id);
          [a[0]] + Without(a[1..] + b, id);
          [a[0]] + (Without(a[1..], id) + Without(b, id));
          ([a[0]] + Without(a[1..], id)) + Without(b, id);
        }
      }
    } else {
      assert a + b == b;
    }
  }

  /** A record survives the filter exactly when it was there and does not match. */
  lemma {:induction false} WithoutMembership(s: seq<Record>, id: string, x: Record)
    ensures x in Without(s, id) <==> x in s && !Matches(x, id)
  {
    if s != [] {
      WithoutMembership(s[1..], id, x);
      assert s == [s[0]] + s[1..];
    }
  }

  /** The filter keeps every record exactly when none matches; then it is the identity. */
  lemma {:induction false} WithoutKeepsAll(s: seq<Record>, id: string)
    ensures |Without(s, id)| == |s| <==> NoMatch(s, id)
    ensures NoMatch(s, id) ==> Without(s, id) == s
  {
    if s != [] {
      WithoutKeepsAll(s[1..], id);
      if NoMatch(s, id) {
        assert NoMatch(s[1..], id) by {
          forall j | 0 <= j < |s[1..]| ensures !Matches(s[1..][j], id) {
            assert s[1..][j] == s[j + 1];
          }
        }
      } else if !Matches(s[0], id) {
        assert !NoMatch(s[1..], id) by {
          var j :| 0 <= j < |s| && Matches(s[j], id);
          assert s[1..][j - 1] == s[j];
        }
      }
    }
  }

  /** The record POST stores: the generated id first, then the body spread over it. */
  function NewPrompt(generated: string, body: Record): (r: Record)
    ensures r.Keys == body.Keys + {"id"}
    ensures forall k | k in body :: r[k] == body[k]
    ensures "id" !in body ==> r["id"] == Str(generated)
  {
    Merge(map["id" := Str(generated)], body)
  }

  /** GET /api/prompts: the stored collection, status 200, no write. */
  function HandleList(s: seq<Record>): (o: Outcome)
    ensures o.response.status == 200 && o.written == None
    ensures o.response.body.Collection? && o.response.body.items == s
  {
    Outcome(Response(200, Collection(s)), None)
  }

  /** POST /api/prompts. */
  function HandleCreate(s: seq<Record>, random: seq<byte>, body: Record): (o: Outcome)
    requires |random| == 8
    ensures o.response.status == 201 && o.written.Some?
    ensures |o.written.value| == |s| + 1 && o.written.value[..|s|] == s
    ensures o.response.body == Single(o.written.value[|s|])
    ensures o.written.value[|s|] == NewPrompt(PromptId(random), body)
  {
    var created := NewPrompt(PromptId(random), body);
    Outcome(Response(201, Single(created)), Some(s + [created]))
  }

  /** PUT /api/prompts/:id. */
  function HandleUpdate(s: seq<Record>, id: string, patch: Record): (o: Outcome)
    ensures o.response.status == 404 <==> NoMatch(s, id)
    ensures NoMatch(s, id) ==> o == NotFound
    ensures !NoMatch(s, id) ==>
      var i := FirstIndex(s, id);
      && o.response.status == 200
      && o.written.Some?
      && |o.written.value| == |s|
      && o.written.value[i] == Merge(s[i], patch)
      && (forall j | 0 <= j < |s| && j != i :: o.written.value[j] == s[j])
      && o.response.body == Single(o.written.value[i])
  {
    var i := FirstIndex(s, id);
    if i == -1 then NotFound
    else
      var updated := Merge(s[i], patch);
      Outcome(Response(200, Single(updated)), Some(s[i := updated]))
  }

  /** DELETE /api/prompts/:id: 404 is decided by comparing lengths, as the route does. */
  function HandleDelete(s: seq<Record>, id: string): (o: Outcome)
    ensures o.response.status == 404 <==> NoMatch(s, id)
    ensures NoMatch(s, id) ==> o == NotFound
    ensures !NoMatch(s, id) ==>
      && o.response == Response(204, NoContent)
      && o.written == Some(Without(s, id))
      && |Without(s, id)| < |s|
  {
    var kept := Without(s, id);
    WithoutKeepsAll(s, id);
    if |kept| == |s| then NotFound
    else Outcome(Response(204, NoContent), Some(kept))
  }

  // ---- Laws relating the routes ----

  /** The collection a route leaves behind: what it wrote, or the input when it wrote nothing. */
  function After(s: seq<Record>, o: Outcome): seq<Record> {
    if o.written.Some? then o.written.value else s
  }

  /** Deleting the same id twice: the second request answers 404 and writes nothing. */
  lemma DeleteTwiceNotFound(s: seq<Record>, id: string)
    ensures HandleDelete(After(s, HandleDelete(s, id)), id) == NotFound
  {
  }

  /**
   * With a fresh generated id and no `id` in the body, the created record is
   * the one later routes find by that id, and deleting it restores the
   * collection exactly.
   */
  lemma CreateThenDelete(s: seq<Record>, random: seq<byte>, body: Record)
    requires |random| == 8
    requires "id" !in body
    requires NoMatch(s, PromptId(random))
    ensures var t := HandleCreate(s, random, body).written.value;
      && FirstIndex(t, PromptId(random)) == |s|
      && HandleDelete(t, PromptId(random)).written == Some(s)
  {
    var id := PromptId(random);
    var t := HandleCreate(s, random, body).written.value;
    var created := t[|s|];
    assert t == s + [created];
    assert Matches(created, id);
    assert !NoMatch(t, id);
    WithoutKeepsAll(s, id);
    WithoutConcat(s, [created], id);
    WithoutSingle(created, id);
    assert Without(t, id) == s + [] == s;
    assert HandleDelete(t, id).written == Some(Without(t, id));
  }

  /** The body's `id` wins over the generated one: a body repeating a stored id stores a duplicate. */
  lemma CreateMayDuplicateId(s: seq<Record>, random: seq<byte>, body: Record, k: nat)
    requires |random| == 8
    requires k < |s| && "id" in s[k] && "id" in body && body["id"] == s[k]["id"]
    ensures !UniqueIds(HandleCreate(s, random, body).written.value)
  {
    var t := HandleCreate(s, random, body).written.value;
    assert t[k] == s[k];
    assert t[|s|]["id"] == body["id"];
  }

  /** Create keeps ids unique when the body carries no `id` and the generated one is unused. */
  lemma CreatePreservesUnique(s: seq<Record>, random: seq<byte>, body: Record)
    requires |random| == 8
    requires UniqueIds(s)
    requires "id" !in body
    requires NoMatch(s, PromptId(random))
    ensures UniqueIds(HandleCreate(s, random, body).written.value)
  {
  }

  /** Update keeps ids unique unless its patch brings a different `id`. */
  lemma UpdatePreservesUnique(s: seq<Record>, id: string, patch: Record)
    requires UniqueIds(s)
    requires "id" in patch ==> patch["id"] == Str(id)
    ensures UniqueIds(After(s, HandleUpdate(s, id, patch)))
  {
  }

  /** A patch carrying another `id` rewrites the record's id: the old path id no longer finds it. */
  lemma UpdateMayRewriteId(s: seq<Record>, id: string, other: string, patch: Record)
    requires !NoMatch(s, id)
    requires "id" in patch && patch["id"] == Str(other) && other != id
    ensures var i := FirstIndex(s, id);
      var t := After(s, HandleUpdate(s, id, patch));
      Matches(t[i], other) && !Matches(t[i], id)
  {
  }

  /** Repeating an update that leaves the id alone writes the same collection again. */
  lemma UpdateIdempotent(s: seq<Record>, id: string, patch: Record)
    requires "id" in patch ==> patch["id"] == Str(id)
    ensures var t := After(s, HandleUpdate(s, id, patch));
      After(t, HandleUpdate(t, id, patch)) == t
  {
    if !NoMatch(s, id) {
      var i := FirstIndex(s, id);
      var t := After(s, HandleUpdate(s, id, patch));
      assert Matches(t[i], id);
      assert t[..i] == s[..i];
      assert FirstIndex(t, id) == i;
      MergeIdempotent(s[i], patch);
    }
  }

  /** Delete keeps ids unique. */
  lemma {:induction false} DeletePreservesUnique(s: seq<Record>, id: string)
    requires UniqueIds(s)
    ensures UniqueIds(After(s, HandleDelete(s, id)))
  {
    WithoutUnique(s, id);
  }

  lemma {:induction false} WithoutUnique(s: seq<Record>, id: string)
    requires UniqueIds(s)
    ensures UniqueIds(Without(s, id))
  {
    if s != [] {
      assert UniqueIds(s[1..]) by {
        forall i, j | 0 <= i < j < |s[1..]| && "id" in s[1..][i] && "id" in s[1..][j]
          ensures s[1..][i]["id"] != s[1..][j]["id"]
        {
          assert s[1..][i] == s[i + 1] && s[1..][j] == s[j + 1];
        }
      }
      WithoutUnique(s[1..], id);
      if !Matches(s[0], id) {
        var rest := Without(s[1..], id);
        var r := [s[0]] + rest;
        forall i, j | 0 <= i < j < |r| && "id" in r[i] && "id" in r[j]
          ensures r[i]["id"] != r[j]["id"]
        {
          if i == 0 {
            assert r[j] == rest[j - 1];
            WithoutMembership(s[1..], id, rest[j - 1]);
            var k :| 0 <= k < |s[1..]| && s[1..][k] == rest[j - 1];
            assert s[k + 1] == r[j];
          } else {
            assert r[i] == rest[i - 1] && r[j] == rest[j - 1];
          }
        }
      }
    }
  }

  lemma WithoutSingle(x: Record, id: string)
    ensures Without([x], id) == if Matches(x, id) then [] else [x]
  {
  }

  /** Cutting out one matching record, with no match on either side of it, is the filter. */
  lemma WithoutCutsOut(s: seq<Record>, i: nat, id: string)
    requires i < |s| && Matches(s[i], id)
    requires NoMatch(s[..i], id) && NoMatch(s[i + 1..], id)
    ensures Without(s, id) == s[..i] + s[i + 1..]
  {
    var before, after := s[..i], s[i + 1..];
    assert s == before + ([s[i]] + after);
    WithoutConcat(before, [s[i]] + after, id);
    WithoutConcat([s[i]], after, id);
    WithoutKeepsAll(before, id);
    WithoutSingle(s[i], id);
    WithoutKeepsAll(after, id);
  }

  /** With unique ids, no record after the first match matches again. */
  lemma UniqueAfterFirst(s: seq<Record>, id: string)
    requires UniqueIds(s) && !NoMatch(s, id)
    ensures NoMatch(s[FirstIndex(s, id) + 1..], id)
  {
    var i := FirstIndex(s, id);
    var after := s[i + 1..];
    forall j | 0 <= j < |after| ensures !Matches(after[j], id) {
      assert after[j] == s[i + 1 + j];
    }
  }

  /** With unique ids, delete removes exactly the one matching record and keeps the rest in order. */
  lemma DeleteRemovesOne(s: seq<Record>, id: string)
    requires UniqueIds(s)
    requires !NoMatch(s, id)
    ensures var i := FirstIndex(s, id);
      HandleDelete(s, id).written == Some(s[..i] + s[i + 1..])
  {
    var i := FirstIndex(s, id);
    assert NoMatch(s[..i], id) by {
      forall j | 0 <= j < i ensures !Matches(s[..i][j], id) {
        assert s[..i][j] == s[j];
      }
    }
    UniqueAfterFirst(s, id);
    WithoutCutsOut(s, i, id);
  }
}
