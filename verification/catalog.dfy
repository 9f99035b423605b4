/** The seller's product handlers: creating a product with its uploaded
    images, and deleting a product together with its image assets. */
module Catalog {
  import opened Model

  const ShopIdInvalid := "Shop Id is invalid!"
  const ProductNotFound := "Product is not found with this id"
  const ProductDeleted := "Product Deleted successfully!"

  /** The `images` field of a create-product request, by JavaScript type. */
  datatype ImagesInput =
    | Text(source: string)          // a single image as a string
    | Many(sources: seq<string>)    // an array of images
    | NoLength                      // a number, boolean or plain object: `.length` is undefined
    | Missing                       // undefined or null: reading `.length` throws

  datatype ProductRequest = ProductRequest(
    shopId: Id,
    name: string,
    description: string,
    category: string,
    discountPrice: real,
    stock: int,
    images: ImagesInput)

  /** The list the upload loop walks, or None when reading its length throws.
      A lone string is wrapped; an array is used as given; a value without a
      length makes the loop run zero times. */
  function Normalize(images: ImagesInput): (r: Option<seq<string>>)
    ensures r.None? <==> images.Missing?
    ensures images.Text? ==> r == Some([images.source])
    ensures images.Many? ==> r == Some(images.sources)
    ensures images.NoLength? ==> r == Some([])
  {
    match images
    case Text(s) => Some([s])
    case Many(xs) => Some(xs)
    case NoLength => Some([])
    case Missing => None
  }

  /** The links collected by the upload loop, one per source, in order. */
  function UploadAll(sources: seq<string>, upload: string -> ImageAsset): (r: seq<ImageAsset>)
    ensures |r| == |sources|
    ensures forall i | 0 <= i < |r| :: r[i] == upload(sources[i])
    decreases |sources|
  {
    if |sources| == 0 then [] else [upload(sources[0])] + UploadAll(sources[1..], upload)
  }

  /** The upload calls the loop makes, one per source, in order. */
  function UploadCalls(sources: seq<string>): (r: seq<MediaCall>)
    ensures |r| == |sources|
    ensures forall i | 0 <= i < |r| :: r[i] == Upload(sources[i])
    decreases |sources|
  {
    if |sources| == 0 then [] else [Upload(sources[0])] + UploadCalls(sources[1..])
  }

  /** The shop fields copied into a new product. */
  function Snapshot(shop: Shop): (s: ShopSnapshot)
    ensures s.address == shop.address && s.phoneNumber == shop.phoneNumber && s.email == shop.email
    ensures s.name == shop.name && s.reviews == shop.reviews
  {
    ShopSnapshot(shop.address, shop.phoneNumber, shop.email, shop.name, shop.reviews)
  }

  /** POST /create-product. The media store is the function `upload`, which
      maps an image source to the asset it creates. The new product gets the
      next free id, sold_out 0, no reviews and no rating. */
  function CreateProduct(st: Store, req: ProductRequest, upload: string -> ImageAsset): (r: Reply<(Id, Product)>)
    ensures req.shopId !in st.shops ==> r == Reply(st, Err(Error(400, Message(ShopIdInvalid))), [])
    ensures req.shopId in st.shops && req.images.Missing? ==> r == Reply(st, Err(Error(400, NullAccess)), [])
    ensures r.result.Err? ==> r.store == st && r.media == []
    ensures r.result.Ok? <==> req.shopId in st.shops && !req.images.Missing?
    ensures r.result.Ok? ==>
      var (id, p) := r.result.value;
      var sources := Normalize(req.images).value;
      && id == st.nextProductId
      && r.store == st.(products := st.products[id := p], nextProductId := id + 1)
      && p.name == req.name && p.shopId == req.shopId && p.description == req.description
      && p.category == req.category && p.discountPrice == req.discountPrice && p.stock == req.stock
      && p.shop == Snapshot(st.shops[req.shopId])
      && p.soldOut == 0 && p.reviews == [] && p.ratings == None
      && |p.images| == |sources|
      && (forall i | 0 <= i < |sources| :: p.images[i] == upload(sources[i]))
      && r.media == UploadCalls(sources)
    ensures Valid(st) ==> Valid(r.store)
    ensures Valid(st) && r.result.Ok? ==> r.result.value.0 !in st.products
  {
    if req.shopId !in st.shops then Reply(st, Err(Error(400, Message(ShopIdInvalid))), [])
    else
      match Normalize(req.images)
      case None => Reply(st, Err(Error(400, NullAccess)), [])
      case Some(sources) =>
        var id := st.nextProductId;
        var p := Product(req.name, req.description, req.category, req.shopId, Snapshot(st.shops[req.shopId]),
                         req.discountPrice, req.stock, 0, UploadAll(sources, upload), [], None);
        Reply(st.(products := st.products[id := p], nextProductId := id + 1), Ok((id, p)), UploadCalls(sources))
  }

  /** The destroy calls for every image of a product, in order. */
  function DestroyAll(images: seq<ImageAsset>): (r: seq<MediaCall>)
    ensures |r| == |images|
    ensures forall i | 0 <= i < |r| :: r[i] == Destroy(images[i].publicId)
    decreases |images|
  {
    if |images| == 0 then [] else [Destroy(images[0].publicId)] + DestroyAll(images[1..])
  }

  /** How the deletion loop ended: the destroy calls it made and whether it
      threw. */
  datatype LoopEnd = LoopEnd(calls: seq<MediaCall>, threw: bool)

  /** The deletion loop as written, from index `i`: its condition
      `1 < images.length` never mentions `i`, so with two or more images it
      keeps going until `images[i]` is undefined and reading its public id throws. */
  function DeleteLoopAsWritten(images: seq<ImageAsset>, i: nat): (r: LoopEnd)
    requires i <= |images|
    ensures r.threw <==> 1 < |images|
    ensures 1 < |images| ==> r.calls == DestroyAll(images[i..])
    ensures |images| <= 1 ==> r.calls == []
    decreases |images| - i
  {
    if !(1 < |images|) then LoopEnd([], false)
    else if i == |images| then LoopEnd([], true)
    else
      var rest := DeleteLoopAsWritten(images, i + 1);
      assert images[i..] == [images[i]] + images[i + 1..];
      LoopEnd([Destroy(images[i].publicId)] + rest.calls, rest.threw)
  }

  /** DELETE /delete-shop-product/:id as written: the product is removed only
      when it has at most one image; with more, every asset is destroyed and
      then the handler fails, leaving the product stored. */
  function DeleteProductAsWritten(st: Store, id: Id): (r: Reply<string>)
    ensures id !in st.products ==> r == Reply(st, Err(Error(404, Message(ProductNotFound))), [])
    ensures id in st.products && |st.products[id].images| <= 1 ==>
      r == Reply(st.(products := st.products - {id}), Ok(ProductDeleted), [])
    ensures id in st.products && |st.products[id].images| > 1 ==>
      r == Reply(st, Err(Error(400, NullAccess)), DestroyAll(st.products[id].images))
  {
    if id !in st.products then Reply(st, Err(Error(404, Message(ProductNotFound))), [])
    else
      var images := st.products[id].images;
      var loop := DeleteLoopAsWritten(images, 0);
      assert images[0..] == images;
      if loop.threw then Reply(st, Err(Error(400, NullAccess)), loop.calls)
      else Reply(st.(products := st.products - {id}), Ok(ProductDeleted), loop.calls)
  }

  /** A product with two images can never be deleted: both assets are
      destroyed, the handler fails, and the product stays in the store. */
  lemma {:induction false} DeleteTwoImagesFails(st: Store, id: Id, a: ImageAsset, b: ImageAsset)
    requires id in st.products && st.products[id].images == [a, b]
    ensures DeleteProductAsWritten(st, id).result.Err?
    ensures DeleteProductAsWritten(st, id).store.products == st.products
    ensures DeleteProductAsWritten(st, id).media == [Destroy(a.publicId), Destroy(b.publicId)]
  {
    var calls := DestroyAll([a, b]);
    assert calls[0] == Destroy(a.publicId) && calls[1] == Destroy(b.publicId);
  }

  /** The deletion with the loop bounded by `i < images.length`: every asset
      is destroyed in order, then the product is removed. */
  function DeleteProduct(st: Store, id: Id): (r: Reply<string>)
    ensures id !in st.products ==> r == Reply(st, Err(Error(404, Message(ProductNotFound))), [])
    ensures id in st.products ==>
      && r.result == Ok(ProductDeleted)
      && r.store == st.(products := st.products - {id})
      && |r.media| == |st.products[id].images|
      && forall i | 0 <= i < |r.media| :: r.media[i] == Destroy(st.products[id].images[i].publicId)
  {
    if id !in st.products then Reply(st, Err(Error(404, Message(ProductNotFound))), [])
    else Reply(st.(products := st.products - {id}), Ok(ProductDeleted), DestroyAll(st.products[id].images))
  }

  /** The two versions agree exactly when the product is missing or has no
      image: with one image the loop as written removes the product but
      never destroys its asset. */
  lemma {:induction false} DeleteVersionsAgree(st: Store, id: Id)
    ensures DeleteProductAsWritten(st, id) == DeleteProduct(st, id)
        <==> id !in st.products || |st.products[id].images| == 0
  {
    if id in st.products && |st.products[id].images| == 1 {
      assert DestroyAll(st.products[id].images) != [];
    }
  }

  /** Creating a product and then deleting it restores the product map, and
      the deletion destroys exactly the assets the creation uploaded. */
  lemma {:induction false} DeleteUndoesCreate(st: Store, req: ProductRequest, upload: string -> ImageAsset)
    requires Valid(st)
    requires CreateProduct(st, req, upload).result.Ok?
    ensures var created := CreateProduct(st, req, upload);
      var id := created.result.value.0;
      var deleted := DeleteProduct(created.store, id);
      && deleted.result.Ok?
      && deleted.store.products == st.products
      && deleted.media == DestroyAll(created.result.value.1.images)
  {
    var created := CreateProduct(st, req, upload);
    var id := created.result.value.0;
    assert id !in st.products;
    assert created.store.products - {id} == st.products;
  }
}
