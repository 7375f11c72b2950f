/**
 * The four `/api/prompts` routes as methods of one object that owns the
 * stored document. Each route loads the whole collection, changes a local
 * copy, and saves the whole collection back only on its success path.
 */
module Server {
  import opened Json
  import opened Ids
  import opened Prompts

  /** The JSON file behind readPrompts/writePrompts: an array of prompts, or missing/unparsable. */
  datatype Document = Stored(prompts: seq<Record>) | Unreadable

  class PromptApi {
    var document: Document
    /** How many times the document has been written. */
    var writes: nat

    constructor (initial: Document)
      ensures document == initial && writes == 0
    {
      document := initial;
      writes := 0;
    }

    /** readPrompts: a missing or unparsable file reads as the empty collection. */
    function Load(): (s: seq<Record>)
      reads this
      ensures document.Stored? ==> s == document.prompts
      ensures document.Unreadable? ==> s == []
    {
      match document
      case Stored(s) => s
      case Unreadable => []
    }

    /** writePrompts: the whole collection replaces the document. */
    method Save(prompts: seq<Record>)
      modifies this
      ensures document == Stored(prompts) && writes == old(writes) + 1
    {
      document := Stored(prompts);
      writes := writes + 1;
    }

    /** GET /api/prompts. */
    method GetPrompts() returns (resp: Response)
      ensures resp == HandleList(Load()).response
      ensures resp.status == 200 && resp.body == Collection(Load())
      ensures document.Unreadable? ==> resp.body == Collection([])
    {
      var prompts := Load();
      resp := Response(200, Collection(prompts));
    }

    /** POST /api/prompts; `random` stands for the eight random bytes of the id. */
    method PostPrompt(random: seq<byte>, body: Record) returns (resp: Response)
      requires |random| == 8
      modifies this
      ensures var o := HandleCreate(old(Load()), random, body);
        && resp == o.response
        && document == Stored(o.written.value)
        && writes == old(writes) + 1
    {
      var prompts := Load();
      var newPrompt := NewPrompt(PromptId(random), body);
      prompts := prompts + [newPrompt];
      Save(prompts);
      resp := Response(201, Single(newPrompt));
    }

    /** PUT /api/prompts/:id. */
    method PutPrompt(id: string, body: Record) returns (resp: Response)
      modifies this
      ensures var o := HandleUpdate(old(Load()), id, body);
        && resp == o.response
        && (o.written.None? ==> document == old(document) && writes == old(writes))
        && (o.written.Some? ==> document == Stored(o.written.value) && writes == old(writes) + 1)
    {
      var prompts := Load();
      var promptIndex := FirstIndex(prompts, id);
      if promptIndex == -1 {
        return Response(404, Message(NotFoundMessage));
      }
      var updatedPrompt := Merge(prompts[promptIndex], body);
      prompts := prompts[promptIndex := updatedPrompt];
      Save(prompts);
      resp := Response(200, Single(updatedPrompt));
    }

    /** DELETE /api/prompts/:id. */
    method DeletePrompt(id: string) returns (resp: Response)
      modifies this
      ensures var o := HandleDelete(old(Load()), id);
        && resp == o.response
        && (o.written.None? ==> document == old(document) && writes == old(writes))
        && (o.written.Some? ==> document == Stored(o.written.value) && writes == old(writes) + 1)
    {
      var prompts := Load();
      var initialLength := |prompts|;
      prompts := Without(prompts, id);
      if |prompts| == initialLength {
        return Response(404, Message(NotFoundMessage));
      }
      Save(prompts);
      resp := Response(204, NoContent);
    }
  }

  /**
   * Two creates on an unreadable document, then a list: exactly the two new
   * records, each the body fields plus its id, in creation order.
   */
  method CreateTwiceThenList(r1: seq<byte>, r2: seq<byte>, b1: Record, b2: Record)
    returns (listed: Response)
    requires |r1| == 8 && |r2| == 8
    ensures listed == Response(200, Collection([NewPrompt(PromptId(r1), b1), NewPrompt(PromptId(r2), b2)]))
  {
    var api := new PromptApi(Unreadable);
    var first := api.PostPrompt(r1, b1);
    var second := api.PostPrompt(r2, b2);
    listed := api.GetPrompts();
  }
}
