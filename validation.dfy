/** The request guards of the three generate handlers. A guard that fails
    decides the response before options are built or the encoder runs. */
module Validation {
  import opened Wrappers
  import opened JsValues

  /** The `{error, message}` body of a 400 response. */
  datatype Rejection = Rejection(error: string, message: string)

  const TextRequired: Rejection :=
    Rejection("Text is required", "Please provide text or URL to generate QR code")
  const ItemsRequired: Rejection :=
    Rejection("Items array is required", "Please provide an array of items to generate QR codes")
  const TooManyItems: Rejection :=
    Rejection("Too many items", "Maximum 50 QR codes can be generated at once")

  /** The largest batch the server accepts. */
  const MaxBatchItems: nat := 50

  /** `if (!text)`: any falsy `text`, absent or empty among them, is
      refused; text made only of white space passes, because the server does
      not trim. */
  function CheckText(text: Option<Json>): (r: Result<Json, Rejection>)
    ensures r.Success? <==> Truthy(text)
    ensures r.Success? ==> text == Some(r.value) && r.value != JNull
    ensures r.Failure? ==> r.error == TextRequired
  {
    if !Truthy(text) then Failure(TextRequired) else Success(text.value)
  }

  /** The two batch guards, in source order: `items` must be a non-empty
      array, and then hold at most 50 elements. */
  function CheckItems(items: Option<Json>): (r: Result<seq<Json>, Rejection>)
    ensures r.Success? <==> items.Some? && items.value.JArr? && 0 < |items.value.elems| <= MaxBatchItems
    ensures r.Success? ==> r.value == items.value.elems
    ensures r.Failure? ==>
      r.error == (if items.Some? && items.value.JArr? && |items.value.elems| > 0 then TooManyItems else ItemsRequired)
  {
    if !Truthy(items) || !items.value.JArr? || |items.value.elems| == 0 then Failure(ItemsRequired)
    else if |items.value.elems| > MaxBatchItems then Failure(TooManyItems)
    else Success(items.value.elems)
  }

  /** The guard does not trim: a text of spaces is accepted. */
  lemma BlankTextAccepted(n: nat)
    requires n > 0
    ensures CheckText(Some(JStr(seq(n, _ => ' ')))) == Success(JStr(seq(n, _ => ' ')))
  {
    assert seq(n, _ => ' ')[0] == ' ';
  }
}
