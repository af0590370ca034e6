/** The client-side checks of `ImageUpload` with its default props and the
    server-side guards of `POST /api/items` accept the same image files. */
module UploadAgreement {

  import opened Wrappers
  import ImageUpload
  import ItemsRoute

  /** A file the component selects with its defaults is one the route's
      size and type guards let through, and conversely; so for a form with
      a title and a category, the route answers 400 to no file the
      component selected. */
  lemma ClientAndServerAgree(f: ImageUpload.File, title: string, category: string)
    requires title != "" && category != ""
    ensures ImageUpload.HandleFileSelect(Some([f]), ImageUpload.DefaultAccept, ImageUpload.DefaultMaxSize).Selected?
        <==> f.size <= ItemsRoute.MaxImageSize && ItemsRoute.AllowedImageType(f.mimeType)
    ensures ImageUpload.HandleFileSelect(Some([f]), ImageUpload.DefaultAccept, ImageUpload.DefaultMaxSize).Selected?
        <==> ItemsRoute.CheckForm(ItemsRoute.ItemForm(Some(title), Some(category), None, None, None,
                                                      Some(ItemsRoute.ImageFile(f.size, f.mimeType)))).None?
  {
    ImageUpload.DefaultAcceptList();
    ItemsRoute.AllowedImageTypeExactly(f.mimeType);
  }
}
