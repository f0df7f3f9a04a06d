/**
 * The prompt-history collection: the category enum, the required fields and
 * the defaults applied when a record is created.
 */
module HistoryModel {
  import opened Wrappers

  datatype Category = Coding | BugFixing | Frontend | Backend | General

  /** The string stored for each category. */
  function CategoryName(c: Category): string {
    match c
    case Coding => "coding"
    case BugFixing => "bug-fixing"
    case Frontend => "frontend"
    case Backend => "backend"
    case General => "general"
  }

  /** The schema's enum check: exactly the five names are accepted. */
  function ParseCategory(s: string): (r: Option<Category>)
    ensures r.Some? <==> s in {"coding", "bug-fixing", "frontend", "backend", "general"}
    ensures r.Some? ==> CategoryName(r.value) == s
  {
    if s == "coding" then Some(Coding)
    else if s == "bug-fixing" then Some(BugFixing)
    else if s == "frontend" then Some(Frontend)
    else if s == "backend" then Some(Backend)
    else if s == "general" then Some(General)
    else None
  }

  /** Every category's name is accepted and read back as that category. */
  lemma ParseCategoryName(c: Category)
    ensures ParseCategory(CategoryName(c)) == Some(c)
  {
  }

  datatype Metadata = Metadata(modelUsed: string, latency: int, tokenCount: Option<int>)

  datatype HistoryRecord = HistoryRecord(
    id: nat,
    userId: nat,
    originalPrompt: string,
    enhancedPrompt: string,
    category: Category,
    isFavorite: bool,
    tags: seq<string>,
    createdAt: int,
    metadata: Metadata)

  const DefaultModel := "gpt-4o-mini"

  /** The document handed to `PromptHistory.create`; an absent field is None. */
  datatype HistoryFields = HistoryFields(
    userId: Option<nat>,
    originalPrompt: Option<string>,
    enhancedPrompt: Option<string>,
    category: Option<string>,
    isFavorite: Option<bool>,
    modelUsed: Option<string>,
    latency: Option<int>)

  predicate PresentString(v: Option<string>) {
    v.Some? && v.value != []
  }

  /**
   * Schema casting and validation at time `now`: userId, both prompts and
   * the category are required, the category must be one of the five names;
   * isFavorite defaults to false, tags to [], modelUsed to "gpt-4o-mini",
   * latency to 0, and createdAt is `now`. On failure the failing paths are
   * listed in schema order.
   */
  function CreateHistory(id: nat, f: HistoryFields, now: int): (r: Result<HistoryRecord, seq<string>>)
    ensures r.Success? <==>
      f.userId.Some? && PresentString(f.originalPrompt) && PresentString(f.enhancedPrompt)
      && f.category.Some? && ParseCategory(f.category.value).Some?
    ensures r.Failure? ==>
      && ("userId" in r.error <==> f.userId.None?)
      && ("originalPrompt" in r.error <==> !PresentString(f.originalPrompt))
      && ("enhancedPrompt" in r.error <==> !PresentString(f.enhancedPrompt))
      && ("category" in r.error <==> f.category.None? || ParseCategory(f.category.value).None?)
    ensures r.Success? ==>
      && r.value.id == id && r.value.userId == f.userId.value
      && r.value.originalPrompt == f.originalPrompt.value
      && r.value.enhancedPrompt == f.enhancedPrompt.value
      && CategoryName(r.value.category) == f.category.value
      && r.value.isFavorite == (f.isFavorite.Some? && f.isFavorite.value)
      && r.value.tags == []
      && r.value.createdAt == now
      && r.value.metadata.modelUsed == (if f.modelUsed.Some? then f.modelUsed.value else DefaultModel)
      && r.value.metadata.latency == (if f.latency.Some? then f.latency.value else 0)
  {
    var missing := FailingPaths(
      f.userId.Some?, PresentString(f.originalPrompt), PresentString(f.enhancedPrompt),
      f.category.Some? && ParseCategory(f.category.value).Some?);
    if missing != [] then Failure(missing)
    else
      Success(HistoryRecord(
        id, f.userId.value, f.originalPrompt.value, f.enhancedPrompt.value,
        ParseCategory(f.category.value).value,
        if f.isFavorite.Some? then f.isFavorite.value else false,
        [], now,
        Metadata(
          if f.modelUsed.Some? then f.modelUsed.value else DefaultModel,
          if f.latency.Some? then f.latency.value else 0,
          None)))
  }

  function FailingPaths(userOk: bool, originalOk: bool, enhancedOk: bool, categoryOk: bool): (m: seq<string>)
    ensures m == [] <==> userOk && originalOk && enhancedOk && categoryOk
    ensures "userId" in m <==> !userOk
    ensures "originalPrompt" in m <==> !originalOk
    ensures "enhancedPrompt" in m <==> !enhancedOk
    ensures "category" in m <==> !categoryOk
  {
    var u: seq<string> := if userOk then [] else ["userId"];
    var o: seq<string> := if originalOk then [] else ["originalPrompt"];
    var e: seq<string> := if enhancedOk then [] else ["enhancedPrompt"];
    var c: seq<string> := if categoryOk then [] else ["category"];
    assert "userId" != "originalPrompt" && "userId" != "enhancedPrompt" && "userId" != "category";
    assert "originalPrompt" != "enhancedPrompt" && "originalPrompt" != "category";
    assert "enhancedPrompt" != "category";
    u + o + e + c
  }

  /** A record's category is always one of the five stored names. */
  lemma StoredCategoryInEnum(rec: HistoryRecord)
    ensures CategoryName(rec.category) in {"coding", "bug-fixing", "frontend", "backend", "general"}
  {
  }
}
