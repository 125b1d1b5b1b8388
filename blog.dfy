/**
 * Blog posts: the slug default applied when a post is saved, and the
 * public URL of its cover image. Django's `slugify` and the storage
 * backend's `url()` are inputs.
 */
module Blog {
  import opened Wrappers
  import opened Text

  const CloudName: string := "dqw1t0dul"
  const CloudinaryPrefix: string := "https://" + "res.cloudinary.com/" + CloudName + "/image/upload/"

  /** The slug a post carries once saved: its own, or the slugified title when it had none. */
  function SlugAfterSave(slug: string, title: string, slugify: string -> string): (r: string)
    ensures slug != "" ==> r == slug
    ensures slug == "" ==> r == slugify(title)
  {
    if slug == "" then slugify(title) else slug
  }

  /** Saving twice gives the slug that saving once gave. */
  lemma SaveIdempotent(slug: string, title: string, slugify: string -> string)
    ensures SlugAfterSave(SlugAfterSave(slug, title, slugify), title, slugify)
            == SlugAfterSave(slug, title, slugify)
  {
  }

  class BlogPost {
    var title: string
    var slug: string
    var content: string
    /** The stored file name of the cover image; None or "" when there is none. */
    var coverImage: Option<string>

    constructor (title: string, slug: string, content: string, coverImage: Option<string>)
      ensures this.title == title && this.slug == slug
      ensures this.content == content && this.coverImage == coverImage
    {
      this.title := title;
      this.slug := slug;
      this.content := content;
      this.coverImage := coverImage;
    }

    /** `save`: fills in an empty slug before the row is written. */
    method Save(slugify: string -> string)
      modifies this
      ensures slug == SlugAfterSave(old(slug), old(title), slugify)
      ensures title == old(title) && content == old(content) && coverImage == old(coverImage)
    {
      if slug == "" {
        slug := slugify(title);
      }
    }
  }

  /**
   * `cover_image_url`: None without a cover image; the storage URL when it is
   * already absolute; otherwise the Cloudinary delivery URL of the stored name.
   */
  function CoverImageUrl(coverImage: Option<string>, storageUrl: string -> string): (r: Option<string>)
    ensures coverImage.None? || coverImage.value == "" ==> r == None
    ensures coverImage.Some? && coverImage.value != "" && StartsWith(storageUrl(coverImage.value), "http")
            ==> r == Some(storageUrl(coverImage.value))
    ensures coverImage.Some? && coverImage.value != "" && !StartsWith(storageUrl(coverImage.value), "http")
            ==> r == Some(CloudinaryPrefix + coverImage.value)
  {
    if coverImage.None? || coverImage.value == "" then None
    else if StartsWith(storageUrl(coverImage.value), "http") then Some(storageUrl(coverImage.value))
    else Some(CloudinaryPrefix + coverImage.value)
  }

  /** Every cover URL handed out is absolute. */
  lemma CoverImageUrlIsAbsolute(coverImage: Option<string>, storageUrl: string -> string)
    ensures var r := CoverImageUrl(coverImage, storageUrl);
            r.Some? ==> StartsWith(r.value, "http")
  {
    var r := CoverImageUrl(coverImage, storageUrl);
    if r.Some? && !StartsWith(storageUrl(coverImage.value), "http") {
      var u := CloudinaryPrefix + coverImage.value;
      assert u[..4] == "https://"[..4];
    }
  }
}
