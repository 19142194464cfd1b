/** The embedding service's `process_message(data, embedding_service)`: it checks the three fields of an
    embedding request, asks the model for an embedding, indexes it, and counts the outcome in
    `embeddings_generated` or `embedding_errors`. The model and the index are collaborators whose
    answers are parameters. */
module MessageProcessing {
  /** A decoded JSON value. */
  datatype Json = JNull | JBool(b: bool) | JNum(n: int) | JStr(s: string) | JArr(items: seq<Json>) | JObj(fields: map<string, Json>)

  /** Python truthiness of a decoded JSON value. */
  predicate Truthy(v: Json)
  {
    match v
    case JNull => false
    case JBool(b) => b
    case JNum(n) => n != 0
    case JStr(s) => s != ""
    case JArr(items) => items != []
    case JObj(fields) => fields != map[]
  }

  /** `data.get(key)`: a missing key reads as `None`. */
  function Get(data: map<string, Json>, key: string): Json
  {
    if key in data then data[key] else JNull
  }

  /** The field check: all three of `image_id`, `image_url` and `image_path` present and truthy. */
  predicate ValidMessage(data: map<string, Json>)
  {
    Truthy(Get(data, "image_id")) && Truthy(Get(data, "image_url")) && Truthy(Get(data, "image_path"))
  }

  /** What `generate_embedding_from_image(image_path)` does: returns a value (the embedding, or a falsy
      value such as `None` when it could not make one), or raises. */
  datatype Generated = Returns(embedding: Json) | ModelRaises

  /** One `index_embedding(image_id, image_url, image_path, embedding)` call. */
  datatype IndexCall = IndexCall(id: Json, url: Json, path: Json, embedding: Json)

  /** What the processor's collaborators have seen: the paths sent to the model, the index calls, and
      the two counters. */
  datatype Effects = Effects(embedRequests: seq<Json>, indexed: seq<IndexCall>, generated: nat, errors: nat)

  /** The effects of one `process_message` call and whether an exception left it. `indexFails` says
      whether `index_embedding` raises; that exception is caught. An exception from the model is outside
      the `try` and leaves the call. */
  datatype Processed = Processed(effects: Effects, raised: bool)

  function ProcessMessage(e: Effects, data: map<string, Json>, gen: Generated, indexFails: bool): Processed
  {
    if !ValidMessage(data) then Processed(e, false)
    else
      var id, url, path := Get(data, "image_id"), Get(data, "image_url"), Get(data, "image_path");
      var asked := e.(embedRequests := e.embedRequests + [path]);
      match gen
      case ModelRaises => Processed(asked, true)
      case Returns(embedding) =>
        if !Truthy(embedding) then Processed(asked.(errors := e.errors + 1), false)
        else
          var tried := asked.(indexed := e.indexed + [IndexCall(id, url, path, embedding)]);
          if indexFails then Processed(tried.(errors := e.errors + 1), false)
          else Processed(tried.(generated := e.generated + 1), false)
  }

  /** A message missing a field, or with a falsy one, is dropped: no model call, no index call, no
      counter change, no exception. */
  lemma InvalidMessageIgnored(e: Effects, data: map<string, Json>, gen: Generated, indexFails: bool)
    requires !ValidMessage(data)
    ensures ProcessMessage(e, data, gen, indexFails) == Processed(e, false)
  {
  }

  /** A valid message asks the model exactly once, for its `image_path`, and its index calls are the
      earlier ones plus at most one, which carries the message's own fields and the embedding. */
  lemma ValidMessageAsksModelOnce(e: Effects, data: map<string, Json>, gen: Generated, indexFails: bool)
    requires ValidMessage(data)
    ensures var p := ProcessMessage(e, data, gen, indexFails).effects;
            && p.embedRequests == e.embedRequests + [data["image_path"]]
            && (p.indexed == e.indexed ||
                (gen.Returns? && p.indexed == e.indexed + [IndexCall(data["image_id"], data["image_url"], data["image_path"], gen.embedding)]))
  {
  }

  /** A falsy embedding counts one error and is not indexed. */
  lemma FalsyEmbeddingCountsError(e: Effects, data: map<string, Json>, embedding: Json, indexFails: bool)
    requires ValidMessage(data) && !Truthy(embedding)
    ensures var p := ProcessMessage(e, data, Returns(embedding), indexFails);
            && !p.raised && p.effects.indexed == e.indexed
            && p.effects.errors == e.errors + 1 && p.effects.generated == e.generated
  {
  }

  /** A truthy embedding is indexed once with the message's fields; a successful index counts one
      embedding and no error, a failed one counts one error and is not re-raised. */
  lemma TruthyEmbeddingIndexedOnce(e: Effects, data: map<string, Json>, embedding: Json, indexFails: bool)
    requires ValidMessage(data) && Truthy(embedding)
    ensures var p := ProcessMessage(e, data, Returns(embedding), indexFails);
            && !p.raised
            && p.effects.indexed == e.indexed + [IndexCall(data["image_id"], data["image_url"], data["image_path"], embedding)]
            && (indexFails ==> p.effects.errors == e.errors + 1 && p.effects.generated == e.generated)
            && (!indexFails ==> p.effects.generated == e.generated + 1 && p.effects.errors == e.errors)
  {
  }

  /** For a valid message whose model call returns, exactly one of the two counters grows, by exactly
      one; the embedding counter grows exactly when the index call succeeded. */
  lemma ExactlyOneCounter(e: Effects, data: map<string, Json>, gen: Generated, indexFails: bool)
    requires ValidMessage(data) && gen.Returns?
    ensures var p := ProcessMessage(e, data, gen, indexFails).effects;
            && p.generated + p.errors == e.generated + e.errors + 1
            && e.generated <= p.generated && e.errors <= p.errors
            && (p.generated == e.generated + 1 <==> Truthy(gen.embedding) && !indexFails)
  {
    if Truthy(gen.embedding) {
      TruthyEmbeddingIndexedOnce(e, data, gen.embedding, indexFails);
    } else {
      FalsyEmbeddingCountsError(e, data, gen.embedding, indexFails);
    }
  }

  /** The counters never move when the model raises: the exception leaves before either is touched. */
  lemma ModelExceptionCountsNothing(e: Effects, data: map<string, Json>, indexFails: bool)
    ensures var p := ProcessMessage(e, data, ModelRaises, indexFails);
            && p.raised == ValidMessage(data)
            && p.effects.generated == e.generated && p.effects.errors == e.errors && p.effects.indexed == e.indexed
  {
  }

  /** The `embeddings_generated` and `embedding_errors` counters. */
  class Counters {
    var generated: nat
    var errors: nat

    constructor ()
      ensures generated == 0 && errors == 0
    {
      generated, errors := 0, 0;
    }
  }

  /** The model and the index as the processor sees them: the requests each has received. */
  class Collaborators {
    var embedRequests: seq<Json>
    var indexed: seq<IndexCall>

    constructor ()
      ensures embedRequests == [] && indexed == []
    {
      embedRequests, indexed := [], [];
    }
  }

  function EffectsOf(c: Collaborators, m: Counters): Effects
    reads c, m
  {
    Effects(c.embedRequests, c.indexed, m.generated, m.errors)
  }

  /** `process_message(data, embedding_service)`; `gen` is the model's answer and `indexFails` whether
      `index_embedding` raises. */
  method Process(c: Collaborators, m: Counters, data: map<string, Json>, gen: Generated, indexFails: bool) returns (raised: bool)
    modifies c, m
    ensures var p := ProcessMessage(old(EffectsOf(c, m)), data, gen, indexFails);
            EffectsOf(c, m) == p.effects && raised == p.raised
  {
    var imageId := Get(data, "image_id");
    var imageUrl := Get(data, "image_url");
    var imagePath := Get(data, "image_path");
    if !Truthy(imageId) || !Truthy(imageUrl) || !Truthy(imagePath) {
      return false;
    }
    c.embedRequests := c.embedRequests + [imagePath];
    if gen.ModelRaises? {
      return true;
    }
    var embedding := gen.embedding;
    if Truthy(embedding) {
      c.indexed := c.indexed + [IndexCall(imageId, imageUrl, imagePath, embedding)];
      if indexFails {
        m.errors := m.errors + 1;
      } else {
        m.generated := m.generated + 1;
      }
    } else {
      m.errors := m.errors + 1;
    }
    return false;
  }
}
