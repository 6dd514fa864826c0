/**
 * The decoding half of the `recommend` endpoint: the ranked document
 * strings the vector store returns become `{title, url, description}`
 * records. `loads` stands for `json.loads`; `None` means it raised.
 */
module Recommend {
  import opened Text
  import opened Values

  datatype Recommendation = Recommendation(title: Json, url: Json, description: Json)

  const FallbackLength := 100

  /** The description of a document that is not a JSON object: at most 100 characters and an ellipsis. */
  function Abbreviate(doc: string): (r: string)
    ensures |r| <= FallbackLength + 3
    ensures StartsWith(r, doc[..if |doc| < FallbackLength then |doc| else FallbackLength])
    ensures |doc| <= FallbackLength ==> r == doc
    ensures |doc| > FallbackLength ==> |r| == FallbackLength + 3 && EndsWith(r, "...")
  {
    if |doc| > FallbackLength then doc[..FallbackLength] + "..." else doc
  }

  /** The record for the document at rank `i` (counted from 0). */
  function DecodeDocument(i: nat, doc: string, loads: string -> Option<Json>): (r: Recommendation)
    ensures (loads(doc).Some? && loads(doc).value.Obj?) ==> var fields := loads(doc).value.fields;
      && r.title == (if "title" in fields then fields["title"] else Str("Unknown Title"))
      && r.url == (if "url" in fields then fields["url"] else Str("#"))
      && r.description == (if "description" in fields then fields["description"] else Str("No description available"))
    ensures !(loads(doc).Some? && loads(doc).value.Obj?) ==>
      r == Recommendation(Str("Document " + NatToString(i + 1)), Str("#"), Str(Abbreviate(doc)))
  {
    match loads(doc)
    case Some(Obj(fields)) =>
      Recommendation(
        Get(fields, "title", Str("Unknown Title")),
        Get(fields, "url", Str("#")),
        Get(fields, "description", Str("No description available")))
    case _ =>
      Recommendation(Str("Document " + NatToString(i + 1)), Str("#"), Str(Abbreviate(doc)))
  }

  /**
   * `documents` is `results['documents']`, or `None` when the query result
   * is empty or has no `documents` entry; only its first list is read.
   */
  method Recommend(documents: Option<seq<seq<string>>>, loads: string -> Option<Json>)
    returns (recommendations: seq<Recommendation>)
    ensures documents.None? || documents.value == [] ==> recommendations == []
    ensures documents.Some? && documents.value != [] ==>
      && |recommendations| == |documents.value[0]|
      && forall i :: 0 <= i < |recommendations| ==>
           recommendations[i] == DecodeDocument(i, documents.value[0][i], loads)
  {
    recommendations := [];
    if documents.Some? && |documents.value| > 0 {
      var ranked := documents.value[0];
      for i := 0 to |ranked|
        invariant |recommendations| == i
        invariant forall k :: 0 <= k < i ==> recommendations[k] == DecodeDocument(k, ranked[k], loads)
      {
        var record := DecodeDocument(i, ranked[i], loads);
        recommendations := recommendations + [record];
      }
    }
  }

  /** Two documents that both fall back get different titles: the title carries the rank. */
  lemma FallbackTitlesDistinct(i: nat, j: nat, a: string, b: string, loads: string -> Option<Json>)
    requires i != j
    requires !(loads(a).Some? && loads(a).value.Obj?) && !(loads(b).Some? && loads(b).value.Obj?)
    ensures DecodeDocument(i, a, loads).title != DecodeDocument(j, b, loads).title
  {
    var prefix := "Document ";
    assert DecodeDocument(i, a, loads).title.s[|prefix|..] == NatToString(i + 1);
    assert DecodeDocument(j, b, loads).title.s[|prefix|..] == NatToString(j + 1);
  }
}
