/** The butterfly catalog as the backend sees it: documents in the store, each
    with a store-assigned ObjectId, and the `Butterfly` API model they are
    converted to (`Butterfly(**{**b, "_id": str(b["_id"])})`). */
module Catalog {
  import opened Wrappers

  type Byte = x: int | 0 <= x < 256

  /** A store-assigned identifier: twelve bytes for a real store, any length here. */
  datatype ObjectId = ObjectId(bytes: seq<Byte>)

  function HexDigit(d: nat): (c: char)
    requires d < 16
  {
    "0123456789abcdef"[d]
  }

  /** `str(oid)`: two lower-case hexadecimal digits per byte. */
  function Hex(bytes: seq<Byte>): (r: string)
    ensures |r| == 2 * |bytes|
  {
    if |bytes| == 0 then [] else [HexDigit(bytes[0] / 16), HexDigit(bytes[0] % 16)] + Hex(bytes[1..])
  }

  function IdText(oid: ObjectId): string {
    Hex(oid.bytes)
  }

  lemma HexDigitInjective(a: nat, b: nat)
    requires a < 16 && b < 16 && HexDigit(a) == HexDigit(b)
    ensures a == b
  {
  }

  /** Distinct identifiers are rendered as distinct strings. */
  lemma {:induction false} HexInjective(a: seq<Byte>, b: seq<Byte>)
    requires Hex(a) == Hex(b)
    ensures a == b
  {
    if |a| > 0 {
      var ha := Hex(a);
      assert ha[0] == HexDigit(a[0] / 16) && ha[1] == HexDigit(a[0] % 16);
      assert ha[0] == HexDigit(b[0] / 16) && ha[1] == HexDigit(b[0] % 16);
      HexDigitInjective(a[0] / 16, b[0] / 16);
      HexDigitInjective(a[0] % 16, b[0] % 16);
      assert a[0] == b[0];
      assert ha[2..] == Hex(a[1..]) && Hex(b)[2..] == Hex(b[1..]);
      HexInjective(a[1..], b[1..]);
      assert a == [a[0]] + a[1..] && b == [b[0]] + b[1..];
    }
  }

  lemma IdTextInjective(x: ObjectId, y: ObjectId)
    ensures IdText(x) == IdText(y) <==> x == y
  {
    if IdText(x) == IdText(y) {
      HexInjective(x.bytes, y.bytes);
    }
  }

  /** A stored document. Fields a document may lack are optional. */
  datatype Doc = Doc(
    oid: ObjectId,
    commonName: Option<string>,
    latinName: Option<string>,
    imageUrl: Option<string>,
    difficulty: Option<int>)

  /** The API model. `id` is optional (absent in a request payload); `difficulty` defaults to 1. */
  datatype Butterfly = Butterfly(
    id: Option<string>,
    commonName: string,
    latinName: string,
    imageUrl: string,
    difficulty: int)

  /** A document the model can be built from: the three required string fields are present. */
  predicate WellFormed(d: Doc) {
    d.commonName.Some? && d.latinName.Some? && d.imageUrl.Some?
  }

  predicate AllWellFormed(docs: seq<Doc>) {
    forall i :: 0 <= i < |docs| ==> WellFormed(docs[i])
  }

  /** Converting a document to the API model; a missing required field is a validation error. */
  function FromDoc(d: Doc): (r: Option<Butterfly>)
    ensures r.Some? <==> WellFormed(d)
    ensures r.Some? ==> r.value.id == Some(IdText(d.oid))
    ensures r.Some? ==> r.value.difficulty == (if d.difficulty.Some? then d.difficulty.value else 1)
    ensures r.Some? ==> Some(r.value.commonName) == d.commonName && Some(r.value.latinName) == d.latinName
                        && Some(r.value.imageUrl) == d.imageUrl
  {
    if !WellFormed(d) then None
    else
      Some(Butterfly(
        Some(IdText(d.oid)),
        d.commonName.value,
        d.latinName.value,
        d.imageUrl.value,
        match d.difficulty case Some(v) => v case None => 1))
  }

  /** Converting a list of documents; fails if any of them fails. */
  function FromDocs(docs: seq<Doc>): (r: Option<seq<Butterfly>>)
    ensures r.Some? <==> AllWellFormed(docs)
    ensures r.Some? ==> |r.value| == |docs|
    ensures r.Some? ==> forall i :: 0 <= i < |docs| ==> FromDoc(docs[i]) == Some(r.value[i])
  {
    if |docs| == 0 then Some([])
    else
      var head := FromDoc(docs[0]);
      var tail := FromDocs(docs[1..]);
      assert forall i :: 1 <= i < |docs| ==> docs[i] == docs[1..][i - 1];
      if head.Some? && tail.Some? then Some([head.value] + tail.value) else None
  }

  /** No two documents share an ObjectId (the store's primary-key guarantee). */
  ghost predicate UniqueIds(docs: seq<Doc>) {
    forall i, j :: 0 <= i < |docs| && 0 <= j < |docs| && i != j ==> docs[i].oid != docs[j].oid
  }

  /** No two butterflies share an `id`. */
  ghost predicate DistinctIds(bs: seq<Butterfly>) {
    forall i, j :: 0 <= i < |bs| && 0 <= j < |bs| && i != j ==> bs[i].id != bs[j].id
  }

  /** Rendering the ids keeps them distinct. */
  lemma FromDocsKeepsDistinct(docs: seq<Doc>)
    requires AllWellFormed(docs)
    ensures UniqueIds(docs) <==> DistinctIds(FromDocs(docs).value)
  {
    var bs := FromDocs(docs).value;
    forall i, j | 0 <= i < |bs| && 0 <= j < |bs| && i != j
      ensures bs[i].id == bs[j].id <==> docs[i].oid == docs[j].oid
    {
      assert FromDoc(docs[i]) == Some(bs[i]) && FromDoc(docs[j]) == Some(bs[j]);
      IdTextInjective(docs[i].oid, docs[j].oid);
    }
  }

  /** `collection.find().to_list(limit)`: the first `limit` documents in store order. */
  function Find(store: seq<Doc>, limit: nat): (r: seq<Doc>)
    ensures |r| == Min(limit, |store|)
    ensures r == store[..|r|]
  {
    if |store| <= limit then store else store[..limit]
  }

  /** `count_documents({})`. */
  function Count(store: seq<Doc>): nat {
    |store|
  }

  /** The page size of every listing in the backend. */
  const ListLimit := 100

  /** Errors surfaced as HTTP responses. */
  datatype ApiError =
    | NotEnoughButterflies
    | InvalidDocument

  function StatusCode(e: ApiError): int {
    match e
    case NotEnoughButterflies => 400
    case InvalidDocument => 500
  }

  /** `GET /butterflies`: the first 100 documents as API records. */
  function GetButterflies(store: seq<Doc>): (r: Result<seq<Butterfly>, ApiError>)
    ensures r.Success? <==> AllWellFormed(Find(store, ListLimit))
    ensures r.Success? ==> |r.value| == Min(ListLimit, |store|)
    ensures r.Success? ==> forall i :: 0 <= i < |r.value| ==> FromDoc(store[i]) == Some(r.value[i])
    ensures r.Success? && UniqueIds(store) ==> DistinctIds(r.value)
  {
    var page := Find(store, ListLimit);
    match FromDocs(page)
    case Some(bs) =>
      assert UniqueIds(store) ==> UniqueIds(page);
      FromDocsKeepsDistinct(page);
      Success(bs)
    case None => Failure(InvalidDocument)
  }
}
