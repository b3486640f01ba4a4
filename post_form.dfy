/** The blog post editor: the slug it derives from a title, how it fills
    itself from a loaded post, the request it saves with, and image URLs. */
module PostForm {
  import opened Strings
  import opened Json

  /** One character of `title.toLowerCase().replace(/ /g, '-')`. */
  function SlugChar(c: char): (d: char)
    ensures d != ' '
    ensures c == ' ' ==> d == '-'
  {
    if c == ' ' then '-' else LowerAscii(c)
  }

  /** The slug derived from a title. */
  function Slug(title: string): (s: string)
    ensures |s| == |title|
    ensures forall i :: 0 <= i < |s| ==> s[i] == SlugChar(title[i])
  {
    if title == [] then [] else [SlugChar(title[0])] + Slug(title[1..])
  }

  /** A slug has no spaces, and deriving a slug from a slug changes nothing. */
  lemma SlugProperties(title: string)
    ensures forall i :: 0 <= i < |Slug(title)| ==> Slug(title)[i] != ' '
    ensures Slug(Slug(title)) == Slug(title)
  {
    var s := Slug(title);
    assert forall i :: 0 <= i < |s| ==> SlugChar(s[i]) == s[i];
  }

  /** A title's capitals are lowered and its spaces become dashes. */
  lemma SlugExample()
    ensures Slug("My Post") == "my-post"
  {
    var t, s := "My Post", Slug("My Post");
    assert s[0] == 'm' && s[1] == 'y' && s[2] == '-' && s[3] == 'p';
    assert s[4..] == t[4..];
  }

  /** The editor's state. Text fields hold whatever the loaded post held
      once `|| ''` has been applied; `title` is copied as it came. */
  datatype PostFormData = PostFormData(
    title: Option<Value>,
    slug: Value,
    content: Value,
    image: Value,
    is_published: bool,
    meta_description: Value,
    category_id: Value)

  /** Lines 11-19. */
  const Blank := PostFormData(Some(Str("")), Str(""), Str(""), Str(""), false, Str(""), Str(""))

  /** `x || ''`. */
  function OrEmpty(v: Option<Value>): (r: Value)
    ensures TruthyOpt(v) ==> r == v.value
    ensures !TruthyOpt(v) ==> r == Str("")
    ensures Truthy(r) <==> TruthyOpt(v)
  {
    if TruthyOpt(v) then v.value else Str("")
  }

  /** Lines 28-36: the state built from a loaded post record. */
  function LoadPost(post: Record): (f: PostFormData)
    ensures f.title == Get(post, "title")
    ensures f.is_published <==> TruthyOpt(Get(post, "is_published"))
    ensures f.slug == OrEmpty(Get(post, "slug")) && f.content == OrEmpty(Get(post, "content"))
    ensures f.image == OrEmpty(Get(post, "image")) && f.meta_description == OrEmpty(Get(post, "meta_description"))
    ensures f.category_id == OrEmpty(Get(post, "category_id"))
  {
    PostFormData(Get(post, "title"), OrEmpty(Get(post, "slug")), OrEmpty(Get(post, "content")),
                 OrEmpty(Get(post, "image")), TruthyOpt(Get(post, "is_published")),
                 OrEmpty(Get(post, "meta_description")), OrEmpty(Get(post, "category_id")))
  }

  /** Every text field of a loaded post is `''` or a truthy value: the load
      step never keeps `null`, `false`, `0` or an absent field. */
  lemma LoadedFieldsNormalised(post: Record)
    ensures var f := LoadPost(post);
            forall v :: v in [f.slug, f.content, f.image, f.meta_description, f.category_id] ==> v == Str("") || Truthy(v)
  {
  }

  /** A post with no optional fields loads as blanks, unpublished. */
  lemma LoadBarePost(title: string)
    ensures LoadPost([Entry("title", Str(title))]) == Blank.(title := Some(Str(title)))
  {
  }

  datatype HttpMethod = Post | Put

  datatype SaveRequest = SaveRequest(httpMethod: HttpMethod, url: string, body: PostFormData)

  /** Lines 72-77: PUT to the post's own URL when editing one, POST to the
      collection otherwise. */
  function SaveRequestFor(id: Option<string>, form: PostFormData): (r: SaveRequest)
    ensures r.body == form
    ensures r.httpMethod == Put <==> id.Some? && id.value != ""
    ensures r.httpMethod == Put ==> r.url == "/posts/" + id.value
    ensures r.httpMethod == Post ==> r.url == "/posts"
  {
    if id.Some? && id.value != "" then SaveRequest(Put, "/posts/" + id.value, form)
    else SaveRequest(Post, "/posts", form)
  }

  /** Line 60: where an uploaded file is served from. */
  function StoragePath(path: string): string {
    "/storage/" + path
  }

  /** Line 205: the preview's `src`. */
  function PreviewSrc(image: string): (src: string)
    ensures StartsWith(image, "http") ==> src == image
    ensures !StartsWith(image, "http") ==> src == "http://localhost:8000" + image
  {
    if StartsWith(image, "http") then image else "http://localhost:8000" + image
  }

  /** Every preview address is absolute, and an uploaded file is fetched
      from the local server's storage. */
  lemma PreviewIsAbsolute(image: string, path: string)
    ensures StartsWith(PreviewSrc(image), "http")
    ensures PreviewSrc(StoragePath(path)) == "http://localhost:8000/storage/" + path
  {
    if !StartsWith(image, "http") {
      assert ("http://localhost:8000" + image)[..4] == "http";
    }
    assert StoragePath(path)[..4] == "/sto";
  }

  /** The editor with its state; each handler replaces the state with a copy
      in which only its own field (and, for the title, the slug) changed. */
  class PostEditor {
    var form: PostFormData

    constructor()
      ensures form == Blank
    {
      form := Blank;
    }

    /** Line 113. */
    method EditTitle(title: string)
      modifies this
      ensures form == old(form).(title := Some(Str(title)), slug := Str(Slug(title)))
    {
      form := form.(title := Some(Str(title)), slug := Str(Slug(title)));
    }

    /** Line 178. */
    method EditSlug(slug: string)
      modifies this
      ensures form == old(form).(slug := Str(slug))
    {
      form := form.(slug := Str(slug));
    }

    /** Line 125. */
    method EditContent(content: string)
      modifies this
      ensures form == old(form).(content := Str(content))
    {
      form := form.(content := Str(content));
    }

    /** Line 138. */
    method EditMetaDescription(text: string)
      modifies this
      ensures form == old(form).(meta_description := Str(text))
    {
      form := form.(meta_description := Str(text));
    }

    /** Line 160. */
    method EditCategory(categoryId: string)
      modifies this
      ensures form == old(form).(category_id := Str(categoryId))
    {
      form := form.(category_id := Str(categoryId));
    }

    /** Line 190. */
    method SetPublished(checked: bool)
      modifies this
      ensures form == old(form).(is_published := checked)
    {
      form := form.(is_published := checked);
    }

    /** Line 60: a finished upload; `path` is what the server answered. */
    method Uploaded(path: string)
      modifies this
      ensures form == old(form).(image := Str(StoragePath(path)))
    {
      form := form.(image := Str(StoragePath(path)));
    }

    /** Line 211. */
    method RemoveImage()
      modifies this
      ensures form == old(form).(image := Str(""))
    {
      form := form.(image := Str(""));
    }

    /** Lines 26-36: the post has arrived. */
    method Loaded(post: Record)
      modifies this
      ensures form == LoadPost(post)
    {
      form := LoadPost(post);
    }
  }
}
