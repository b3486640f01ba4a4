/** The static page editor: the same slug rule as the post editor, a load
    step that drops the meta description, and the save request. */
module PageForm {
  import opened Strings
  import opened Json
  import opened PostForm

  /** The editor's state; `meta_description` is absent (`None`) until edited. */
  datatype PageFormData = PageFormData(
    title: Option<Value>,
    slug: Value,
    content: Value,
    is_published: bool,
    meta_description: Option<Value>)

  /** Lines 8-13. */
  const BlankPage := PageFormData(Some(Str("")), Str(""), Str(""), false, None)

  /** Lines 20-25: the state built from a loaded page record. */
  function LoadPage(page: Record): (f: PageFormData)
    ensures f.title == Get(page, "title")
    ensures f.slug == OrEmpty(Get(page, "slug")) && f.content == OrEmpty(Get(page, "content"))
    ensures f.is_published <==> TruthyOpt(Get(page, "is_published"))
    ensures f.meta_description == None
  {
    PageFormData(Get(page, "title"), OrEmpty(Get(page, "slug")), OrEmpty(Get(page, "content")),
                 TruthyOpt(Get(page, "is_published")), None)
  }

  /** Line 69: the text the meta description box shows. */
  function MetaShown(f: PageFormData): Value {
    OrEmpty(f.meta_description)
  }

  /** A loaded page shows an empty meta description, even when the page has
      one: the load step does not copy it. */
  lemma LoadedMetaIsEmpty(page: Record)
    ensures LoadPage(page).meta_description == None
    ensures MetaShown(LoadPage(page)) == Str("")
  {
  }

  lemma LoadDropsMeta(title: string, meta: string)
    requires meta != ""
    ensures MetaShown(LoadPage([Entry("title", Str(title)), Entry("meta_description", Str(meta))])) == Str("")
  {
  }

  datatype PageSave = PageSave(httpMethod: HttpMethod, url: string, body: PageFormData)

  /** Lines 37-41. */
  function PageSaveFor(id: Option<string>, form: PageFormData): (r: PageSave)
    ensures r.body == form
    ensures r.httpMethod == Put <==> id.Some? && id.value != ""
    ensures r.httpMethod == Put ==> r.url == "/pages/" + id.value
    ensures r.httpMethod == Post ==> r.url == "/pages"
  {
    if id.Some? && id.value != "" then PageSave(Put, "/pages/" + id.value, form)
    else PageSave(Post, "/pages", form)
  }

  class PageEditor {
    var form: PageFormData

    constructor()
      ensures form == BlankPage
    {
      form := BlankPage;
    }

    /** Line 60: the title also sets the slug. */
    method EditTitle(title: string)
      modifies this
      ensures form == old(form).(title := Some(Str(title)), slug := Str(Slug(title)))
    {
      form := form.(title := Some(Str(title)), slug := Str(Slug(title)));
    }

    /** Line 70. */
    method EditMetaDescription(text: string)
      modifies this
      ensures form == old(form).(meta_description := Some(Str(text)))
    {
      form := form.(meta_description := Some(Str(text)));
    }

    /** Line 79. */
    method EditSlug(slug: string)
      modifies this
      ensures form == old(form).(slug := Str(slug))
    {
      form := form.(slug := Str(slug));
    }

    /** Line 92. */
    method EditContent(content: string)
      modifies this
      ensures form == old(form).(content := Str(content))
    {
      form := form.(content := Str(content));
    }

    /** Line 102. */
    method SetPublished(checked: bool)
      modifies this
      ensures form == old(form).(is_published := checked)
    {
      form := form.(is_published := checked);
    }

    /** Lines 18-25: the page has arrived. */
    method Loaded(page: Record)
      modifies this
      ensures form == LoadPage(page)
    {
      form := LoadPage(page);
    }
  }
}
