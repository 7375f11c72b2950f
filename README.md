# Prompt Nebula: the prompt collection API

A model of the backend of Prompt Nebula, a small store of text "prompts".
The server keeps every prompt in one JSON document, a top-level array of
objects. Four routes under `/api/prompts` act on it. Each route loads the
whole array, changes it in memory, and writes the whole array back:

- `GET` lists the collection (200).
- `POST` creates a record `{ id: "prompt-" + hex(8 random bytes), ...body }`, appends it and answers 201.
- `PUT /:id` spreads the body over the first record whose `id` is the path id and answers 200, or 404 when there is none.
- `DELETE /:id` drops every record with that id and answers 204, or 404 when nothing was dropped.

Layout:

- `wrappers.dfy`: `Option`.
- `json.dfy`: JSON values. A record is a `map<string, Value>`. `Merge` is the object spread `{...a, ...b}`.
- `ids.dfy`: lowercase hex encoding and decoding of bytes, and the generated identifier `PromptId`.
- `prompts.dfy`: each route as a pure function of the loaded collection. `Handle*` returns an `Outcome`: the response, plus the collection written back (`None` when the route writes nothing). This file also holds the laws relating the routes.
- `server.dfy`: class `PromptApi`. It holds the stored `document` and a `writes` counter. Its four route methods follow the handlers statement by statement, and each is proved equal to its `Handle*` function. The document is `Stored(seq<Record>)` or `Unreadable`. `Load` reads `Unreadable` as `[]`, as `readPrompts` does for a missing or unparsable file.

A record matches a path id when it has an `id` key holding that same string.
This is the `===` comparison with a string path parameter. A record whose
`id` is a number or another non-string value is never found by `PUT` or
`DELETE`.

Identifier uniqueness is stated as a property, not assumed. The code lets a
body `id` override the generated one on create, and lets a patch `id` rewrite
a record's id on update. So the model proves two things. First, uniqueness is
preserved when bodies carry no foreign `id` and the generated id is unused.
Second, a create whose body repeats an existing id does store a duplicate.
Nothing in the routes keeps `id` fixed after creation, and the model follows the routes.

Both uniqueness hypotheses matter in practice. The browser form always posts a
hidden `id` field, which is the empty string for a new prompt
(public/app.js:133, 160-164, and 31-33, where an empty id selects POST). So
every record created through that form gets the id `""`, and a second one
duplicates it (`CreateMayDuplicateId`). `CreatePreservesUnique` and
`CreateThenDelete` assume a body without `id`, which holds for other clients
but not for that form.

## Model

| member | source | states |
|---|---|---|
| Json.Merge | server.js:54 | the merged record has the keys of both sides; every patch key has the patch's value; every other key keeps the existing value |
| Json.MergeIdempotent | server.js:54 | spreading the same patch a second time changes nothing |
| Ids.Encode | server.js:32 | hex encoding gives two lowercase hex digits per byte |
| Ids.DecodeEncode | server.js:32 | decoding the hex encoding of any bytes gives those bytes back |
| Ids.EncodeDecode | server.js:32 | any string that decodes is exactly the encoding of what it decodes to, so only lowercase digit pairs are accepted |
| Ids.PromptId | server.js:32 | the generated id is 23 characters long: "prompt-" followed by 16 lowercase hex digits |
| Ids.ParseIdInverse | server.js:32 | the random bytes can be read back from a generated id |
| Ids.PromptIdInjective | server.js:32 | two generated ids are equal exactly when their random bytes are |
| Prompts.Matches | server.js:48 | a record matches a path id exactly when its `id` key holds a string equal to it; a missing or non-string `id` never matches |
| Prompts.FirstIndex | server.js:48 | returns -1 exactly when no record matches; otherwise the position of a matching record with no match before it |
| Prompts.Without | server.js:69 | the filtered collection is no longer than the input and has no record with the id |
| Prompts.WithoutConcat | server.js:69 | the filter distributes over concatenation, so surviving records keep their relative order |
| Prompts.WithoutMembership | server.js:69 | a record survives exactly when it was present and does not match the id |
| Prompts.WithoutKeepsAll | server.js:68-71 | the length is unchanged exactly when no record matches, and then the collection is unchanged |
| Prompts.NewPrompt | server.js:31-34 | the created record holds every body key with the body's value, plus `id`; the generated id is kept only when the body has no `id` |
| Prompts.HandleList | server.js:18-25 | list answers 200 with the loaded collection and writes nothing |
| Prompts.HandleCreate | server.js:28-41 | create answers 201 with the new record; it writes a collection one longer with every earlier record unchanged and in order, and the new record last |
| Prompts.HandleUpdate | server.js:44-61 | update answers 404 and writes nothing exactly when no record matches; otherwise it answers 200 and writes a collection of the same length, with the first match merged and every other position unchanged |
| Prompts.HandleDelete | server.js:64-80 | delete answers 404 and writes nothing exactly when no record matches; otherwise it answers 204 with no body and writes the strictly shorter filtered collection |
| Prompts.DeleteTwiceNotFound | server.js:64-80 | deleting an id a second time answers 404 and writes nothing |
| Prompts.CreateThenDelete | server.js:28-80 | a record created with a fresh id and no body `id` is the first match for its id; deleting it writes back exactly the collection before the create (not the case for the browser form, which always sends an `id`) |
| Prompts.CreateMayDuplicateId | server.js:31-35 | for every collection and body, a body `id` equal to the id of any stored record yields a collection in which two records share an id |
| Prompts.CreatePreservesUnique | server.js:31-35 | create keeps ids unique when the body has no `id` and the generated id is unused (the browser form always sends an `id`, so its creates fall outside this) |
| Prompts.UpdatePreservesUnique | server.js:54-55 | update keeps ids unique when the patch carries no `id` other than the path id |
| Prompts.UpdateMayRewriteId | server.js:54 | a patch with a different `id` rewrites the record's id, so the path id no longer finds it |
| Prompts.UpdateIdempotent | server.js:48-55 | repeating an update whose patch leaves the id alone writes the same collection again |
| Prompts.WithoutUnique | server.js:69 | filtering keeps ids unique |
| Prompts.DeletePreservesUnique | server.js:69-75 | delete keeps ids unique |
| Prompts.WithoutCutsOut | server.js:69 | when one record matches and none before or after it does, the filter cuts out exactly that record |
| Prompts.UniqueAfterFirst | server.js:48 | with unique ids, no record after the first match matches the same id |
| Prompts.DeleteRemovesOne | server.js:66-76 | with unique ids, delete writes the collection with exactly the matching record cut out |
| Server.PromptApi.Load | database.js:6-15 | a stored document reads as its collection; a missing or unparsable one reads as `[]` |
| Server.PromptApi.Save | database.js:17-23 | the document becomes the given collection, and the write counter goes up by one |
| Server.PromptApi.GetPrompts | server.js:18-25 | answers 200 with the loaded collection without changing the document; an unreadable document lists as `[]` |
| Server.PromptApi.PostPrompt | server.js:28-41 | answers as HandleCreate does, stores the collection with the new record appended, and writes once |
| Server.PromptApi.PutPrompt | server.js:44-61 | answers as HandleUpdate does; on 404 the document and write counter are unchanged; on 200 the merged collection is stored with one write |
| Server.PromptApi.DeletePrompt | server.js:64-80 | answers as HandleDelete does; on 404 the document and write counter are unchanged; on 204 the filtered collection is stored with one write |
| Server.CreateTwiceThenList | server.js:18-41 | two creates on an unreadable document, then a list: status 200 and exactly the two created records, each the body's fields spread over its generated id, in creation order |

## Left out

- File I/O in `database.js` is reduced to the `document` field. A read failure or a parse error reads as the empty collection.
- Write failures are not modelled. `writePrompts` logs and swallows them, so in the model every save succeeds.
- Randomness is not modelled. The eight bytes from `crypto.randomBytes` are a parameter. Whether two generated ids collide cannot be proved.
- The 500 branches are not modelled. The model cannot represent a stored element that is not an object, or a document whose top level is not an array. In the source, such data is handled as follows:
  - A number, string or boolean element has no `id`. It never matches. `DELETE` keeps it and `GET` lists it.
  - A `null` element makes `DELETE` answer 500. `PUT` answers 500 only when the `null` comes before the first match, because the search stops at the first match.
  - A top-level value that is not an array is answered by `GET` with 200, unchanged. `POST`, `PUT` and `DELETE` answer 500 on it.
- The other 500 branches only wrap exceptions thrown by libraries.
- Request bodies are always objects in the model. Spreading a non-object body is not modelled.
- The Express wiring is left out: CORS, JSON body parsing, the history fallback, static file serving and `listen`.
- Requests are not concurrent in the model. Each route runs as one atomic step. The lost-update races between overlapping requests are not captured.
- JSON numbers are integers in the model. Key order inside objects and the pretty-printing of the file are not modelled. The routes never look at either.
- The browser client (`public/app.js`) is not part of this model.
