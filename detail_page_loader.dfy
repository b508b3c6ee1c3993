/**
 * The storefront detail page of one ingredient, reached at `/inci/{slug}`:
 * the active record with that slug, its meta title filled from a template and
 * its meta description taken from the record's description or from a default
 * template.
 */
module DetailPageLoader {
  import opened Wrappers
  import opened PhpString
  import opened InciCatalog
  import opened AddCommand
  import ShowCommand

  // ---------------------------------------------------------------------------
  // Lookup
  // ---------------------------------------------------------------------------

  /** The two filters of the search: the slug, and `active = true`. */
  predicate ActiveWithSlug(r: Inci, slug: Bytes) {
    r.slug == Some(slug) && r.active == Some(true)
  }

  /** `search(...)->first()`: some active record with this slug, or null when there is none. */
  method FindActiveBySlug(records: map<Id, Inci>, slug: Bytes) returns (found: Option<Id>)
    ensures found.Some? ==> found.value in records && ActiveWithSlug(records[found.value], slug)
    ensures found.None? <==> !exists id :: id in records && ActiveWithSlug(records[id], slug)
  {
    if exists id :: id in records && ActiveWithSlug(records[id], slug) {
      var id :| id in records && ActiveWithSlug(records[id], slug);
      found := Some(id);
    } else {
      found := None;
    }
  }

  /**
   * The URL the show command prints for an active record of a consistent
   * catalog opens that record's page: the slug after the route prefix selects
   * it and no other record.
   */
  lemma ShowUrlOpensDetail(records: map<Id, Inci>, id: Id)
    requires Consistent(records) && id in records && records[id].active == Some(true)
    ensures var url := ShowCommand.DetailUrl(records[id].slug);
      && |url| >= |ShowCommand.UrlPrefix| && url[..|ShowCommand.UrlPrefix|] == ShowCommand.UrlPrefix
      && ActiveWithSlug(records[id], url[|ShowCommand.UrlPrefix|..])
      && forall other :: other in records && ActiveWithSlug(records[other], url[|ShowCommand.UrlPrefix|..]) ==> other == id
  {
    var url := ShowCommand.DetailUrl(records[id].slug);
    assert url[|ShowCommand.UrlPrefix|..] == records[id].slug.value;
  }

  // ---------------------------------------------------------------------------
  // Configuration
  // ---------------------------------------------------------------------------

  const TitleKey: Bytes := "CodematicInci.config.metaTitleTemplate"
  const DescriptionKey: Bytes := "CodematicInci.config.metaDescriptionDefault"

  /** `get($key) ?: $default`: an unset or PHP-empty setting falls back to the default. */
  function ConfigOr(config: map<Bytes, Bytes>, key: Bytes, default: Bytes): (v: Bytes)
    ensures !IsEmpty(default) ==> !IsEmpty(v)
    ensures v == default || (key in config && v == config[key])
  {
    if key in config && !IsEmpty(config[key]) then config[key] else default
  }

  // ---------------------------------------------------------------------------
  // Meta title
  // ---------------------------------------------------------------------------

  const NamePlaceholder: Bytes := "{name}"
  const PolishNamePlaceholder: Bytes := "{polishName}"
  const BracketsPlaceholder: Bytes := "{polishNameBrackets}"

  /** " - opis i działanie" */
  const TitleSuffix: Bytes := " - opis i dzia\U{C5}\U{82}anie"

  /** "{name}{polishNameBrackets} - opis i działanie" */
  const DefaultTitleTemplate: Bytes := NamePlaceholder + BracketsPlaceholder + TitleSuffix

  /** " (polish name)" when the Polish name is set, otherwise nothing. */
  function PolishNameBrackets(polishName: Option<Bytes>): Bytes {
    if Truthy(polishName) then " (" + polishName.value + ")" else ""
  }

  /**
   * `str_replace` with three searches: each is replaced in the result of the
   * one before, so text a replacement brings in can be replaced by a later search.
   */
  function MetaTitle(template: Bytes, name: Option<Bytes>, polishName: Option<Bytes>): Bytes {
    var t1 := ReplaceAll(template, NamePlaceholder, OrEmpty(name));
    var t2 := ReplaceAll(t1, PolishNamePlaceholder, if Truthy(polishName) then polishName.value else "");
    ReplaceAll(t2, BracketsPlaceholder, PolishNameBrackets(polishName))
  }

  /**
   * What follows "{name}" in the default template starts with '{' but matches
   * neither "{name}" nor "{polishName}" there ("{polishNameB" is not
   * "{polishName}"), and holds no other '{'.
   */
  lemma TemplateRestFacts()
    ensures var rest := BracketsPlaceholder + TitleSuffix;
      && |rest| > |PolishNamePlaceholder| > |NamePlaceholder| && rest[0] == '{' && '{' !in rest[1..]
      && rest[..|NamePlaceholder|] != NamePlaceholder
      && rest[..|PolishNamePlaceholder|] != PolishNamePlaceholder
      && '{' !in TitleSuffix
  {
    var rest := BracketsPlaceholder + TitleSuffix;
    assert rest[..|PolishNamePlaceholder|][11] == 'B';
    assert rest[..|NamePlaceholder|][1] == 'p';
    assert rest[1..] == BracketsPlaceholder[1..] + TitleSuffix;
  }

  /** The first search replaces the leading "{name}" and nothing in the rest of the default template. */
  lemma TitleNameStep(name: Bytes)
    ensures ReplaceAll(DefaultTitleTemplate, NamePlaceholder, name) == name + BracketsPlaceholder + TitleSuffix
  {
    var rest := BracketsPlaceholder + TitleSuffix;
    TemplateRestFacts();
    assert DefaultTitleTemplate == [] + NamePlaceholder + rest;
    ReplaceAllFirst([], NamePlaceholder, name, rest);
    ReplaceAllSkip([], rest, NamePlaceholder, name);
    assert [] + rest == rest;
  }

  /** The second search finds no "{polishName}" after a name without '{'. */
  lemma TitlePolishNameStep(name: Bytes, polish: Bytes)
    requires '{' !in name
    ensures ReplaceAll(name + BracketsPlaceholder + TitleSuffix, PolishNamePlaceholder, polish)
         == name + BracketsPlaceholder + TitleSuffix
  {
    TemplateRestFacts();
    ReplaceAllSkip(name, BracketsPlaceholder + TitleSuffix, PolishNamePlaceholder, polish);
    assert name + (BracketsPlaceholder + TitleSuffix) == name + BracketsPlaceholder + TitleSuffix;
  }

  /** The third search replaces the brackets placeholder after a name without '{'. */
  lemma TitleBracketsStep(name: Bytes, brackets: Bytes)
    requires '{' !in name
    ensures ReplaceAll(name + BracketsPlaceholder + TitleSuffix, BracketsPlaceholder, brackets)
         == name + brackets + TitleSuffix
  {
    TemplateRestFacts();
    ReplaceAllFirst(name, BracketsPlaceholder, brackets, TitleSuffix);
    ReplaceAllNoLead(TitleSuffix, BracketsPlaceholder, brackets);
  }

  /**
   * With the default template and a name without '{', the title is the name,
   * the Polish name in brackets when set, and " - opis i działanie".
   */
  lemma DefaultMetaTitle(name: Bytes, polishName: Option<Bytes>)
    requires '{' !in name
    ensures MetaTitle(DefaultTitleTemplate, Some(name), polishName) == name + PolishNameBrackets(polishName) + TitleSuffix
  {
    TitleNameStep(name);
    TitlePolishNameStep(name, if Truthy(polishName) then polishName.value else "");
    TitleBracketsStep(name, PolishNameBrackets(polishName));
  }

  /**
   * The searches run one after another: a name that is itself "{polishName}"
   * is replaced by the Polish name in a "{name}" template.
   */
  lemma NameMeetsLaterSearch(polishName: Bytes)
    requires !IsEmpty(polishName) && '{' !in polishName
    ensures MetaTitle(NamePlaceholder, Some(PolishNamePlaceholder), Some(polishName)) == polishName
  {
    ReplaceAllWhole(NamePlaceholder, PolishNamePlaceholder);
    ReplaceAllWhole(PolishNamePlaceholder, polishName);
    ReplaceAllNoLead(polishName, BracketsPlaceholder, PolishNameBrackets(Some(polishName)));
  }


  // ---------------------------------------------------------------------------
  // Meta description
  // ---------------------------------------------------------------------------

  /** "Szczegółowe informacje o składniku kosmetycznym " */
  const DescriptionHead: Bytes :=
    "Szczeg\U{C3}\U{B3}\U{C5}\U{82}owe informacje " + "o sk\U{C5}\U{82}adniku kosmetycznym "

  /** " - bezpieczeństwo, właściwości i zastosowanie." */
  const DescriptionTail: Bytes :=
    " - bezpiecze\U{C5}\U{84}stwo, " + "w\U{C5}\U{82}a\U{C5}\U{9B}ciwo\U{C5}\U{9B}ci i zastosowanie."

  /** "Szczegółowe informacje o składniku kosmetycznym {name} - bezpieczeństwo, właściwości i zastosowanie." */
  const DefaultDescriptionTemplate: Bytes := DescriptionHead + NamePlaceholder + DescriptionTail

  const MetaLimit: nat := 160

  /** A meta description over 160 bytes is cut to 157 and ends in "...". */
  function TruncateMeta(s: Bytes): Bytes {
    if |s| > MetaLimit then s[..MetaLimit - 3] + "..." else s
  }

  /**
   * The result never exceeds 160 bytes; a short text is kept whole; a long one
   * keeps its first 157 bytes, and cutting again changes nothing.
   */
  lemma TruncateMetaFacts(s: Bytes)
    ensures |TruncateMeta(s)| <= MetaLimit
    ensures |s| <= MetaLimit ==> TruncateMeta(s) == s
    ensures |s| > MetaLimit ==>
      |TruncateMeta(s)| == MetaLimit && TruncateMeta(s)[..MetaLimit - 3] == s[..MetaLimit - 3]
      && TruncateMeta(s)[MetaLimit - 3..] == "..."
    ensures TruncateMeta(TruncateMeta(s)) == TruncateMeta(s)
  {
    if |s| > MetaLimit {
      var r := TruncateMeta(s);
      assert r[..MetaLimit - 3] == s[..MetaLimit - 3];
    }
  }

  /**
   * The description: the record's own (tags stripped by `stripTags`, then
   * truncated) when it is set, else the configured or default template with
   * "{name}" replaced.
   */
  function MetaDescription(config: map<Bytes, Bytes>, stripTags: Bytes -> Bytes, r: Inci): Bytes {
    if Truthy(r.description) then TruncateMeta(stripTags(r.description.value))
    else ReplaceAll(ConfigOr(config, DescriptionKey, DefaultDescriptionTemplate), NamePlaceholder, OrEmpty(r.name))
  }

  /**
   * With no description and no configured template, the description is the
   * default sentence around the name, for a name without '{'.
   */
  lemma DefaultMetaDescription(stripTags: Bytes -> Bytes, r: Inci)
    requires !Truthy(r.description) && r.name.Some? && '{' !in r.name.value
    ensures MetaDescription(map[], stripTags, r) == DescriptionHead + r.name.value + DescriptionTail
  {
    assert '{' !in DescriptionHead && '{' !in DescriptionTail;
    ReplaceAllFirst(DescriptionHead, NamePlaceholder, r.name.value, DescriptionTail);
    ReplaceAllNoLead(DescriptionTail, NamePlaceholder, r.name.value);
  }

  /** A record with a description gets a meta description of at most 160 bytes. */
  lemma DescribedMetaBounded(config: map<Bytes, Bytes>, stripTags: Bytes -> Bytes, r: Inci)
    requires Truthy(r.description)
    ensures |MetaDescription(config, stripTags, r)| <= MetaLimit
  {
    TruncateMetaFacts(stripTags(r.description.value));
  }

  // ---------------------------------------------------------------------------
  // The page
  // ---------------------------------------------------------------------------

  /** The detail page: the ingredient shown and the page's meta information. */
  class DetailPage {
    var inci: Option<Inci>
    var metaTitle: Bytes
    var metaDescription: Bytes

    /** `createFrom($page)`: no ingredient yet, the generic page's meta information. */
    constructor (title: Bytes, description: Bytes)
      ensures inci == None && metaTitle == title && metaDescription == description
    {
      inci := None;
      metaTitle := title;
      metaDescription := description;
    }

    method SetInci(i: Option<Inci>)
      modifies this
      ensures inci == i && metaTitle == old(metaTitle) && metaDescription == old(metaDescription)
    {
      inci := i;
    }

    method SetMetaTitle(title: Bytes)
      modifies this
      ensures metaTitle == title && inci == old(inci) && metaDescription == old(metaDescription)
    {
      metaTitle := title;
    }

    method SetMetaDescription(description: Bytes)
      modifies this
      ensures metaDescription == description && inci == old(inci) && metaTitle == old(metaTitle)
    {
      metaDescription := description;
    }
  }

  /**
   * `load`. `config` holds the sales channel's settings, `stripTags` is PHP's
   * `strip_tags`, and the base title and description are those of the generic
   * page. `found` is the record shown.
   */
  method Load(repo: Repository, config: map<Bytes, Bytes>, stripTags: Bytes -> Bytes,
              slug: Bytes, baseTitle: Bytes, baseDescription: Bytes)
    returns (page: DetailPage, ghost found: Option<Id>)
    ensures fresh(page)
    ensures found.Some? ==> found.value in repo.records && ActiveWithSlug(repo.records[found.value], slug)
    ensures found.None? <==> !exists id :: id in repo.records && ActiveWithSlug(repo.records[id], slug)
    // No active record with that slug: an empty page, which the controller answers with 404.
    ensures found.None? ==>
      page.inci == None && page.metaTitle == baseTitle && page.metaDescription == baseDescription
    ensures found.Some? ==>
      var r := repo.records[found.value];
      && page.inci == Some(r)
      && page.metaTitle == MetaTitle(ConfigOr(config, TitleKey, DefaultTitleTemplate), r.name, r.polishName)
      && page.metaDescription == MetaDescription(config, stripTags, r)
  {
    page := new DetailPage(baseTitle, baseDescription);
    var hit := FindActiveBySlug(repo.records, slug);
    found := hit;
    if hit.None? {
      page.SetInci(None);
      return;
    }
    var inci := repo.records[hit.value];
    page.SetInci(Some(inci));
    var template := ConfigOr(config, TitleKey, DefaultTitleTemplate);
    var polishNameBrackets := PolishNameBrackets(inci.polishName);
    var title := ReplaceAll(template, NamePlaceholder, OrEmpty(inci.name));
    title := ReplaceAll(title, PolishNamePlaceholder, if Truthy(inci.polishName) then inci.polishName.value else "");
    title := ReplaceAll(title, BracketsPlaceholder, polishNameBrackets);
    page.SetMetaTitle(title);
    if Truthy(inci.description) {
      var description := stripTags(inci.description.value);
      if |description| > MetaLimit {
        description := description[..MetaLimit - 3] + "...";
      }
      page.SetMetaDescription(description);
    } else {
      var template := ConfigOr(config, DescriptionKey, DefaultDescriptionTemplate);
      page.SetMetaDescription(ReplaceAll(template, NamePlaceholder, OrEmpty(inci.name)));
    }
  }
}
