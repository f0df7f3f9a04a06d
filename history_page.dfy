/** The history page helpers: text truncation and the category badge lookup. */
module HistoryPage {
  import opened HistoryModel

  const DefaultMaxLength := 150
  const Ellipsis := "..."

  /**
   * `truncateText`: the text itself when it fits, otherwise its first
   * maxLength characters and "..."; `substring` clamps a negative bound to 0.
   */
  function TruncateText(text: string, maxLength: int := DefaultMaxLength): (r: string)
    ensures |text| <= maxLength ==> r == text
    ensures |text| > maxLength ==> var keep := if maxLength < 0 then 0 else maxLength;
      r == text[..keep] + Ellipsis && |r| == keep + 3
    ensures var shown := if |text| <= maxLength then |text| else if maxLength < 0 then 0 else maxLength;
      |r| >= shown && r[..shown] == text[..shown]
  {
    if |text| <= maxLength then text
    else
      var keep := if maxLength < 0 then 0 else maxLength;
      text[..keep] + Ellipsis
  }

  /** With the default bound, a long text shows 150 characters and the ellipsis. */
  lemma TruncateDefault(text: string)
    requires |text| > DefaultMaxLength
    ensures |TruncateText(text)| == DefaultMaxLength + 3
  {
  }

  /** The badge for a category: a title and a colour (the icon is left out). */
  datatype Badge = Badge(title: string, color: string)

  /** `CATEGORY_CONFIG[category] || CATEGORY_CONFIG.general`. */
  function CategoryConfig(category: string): (b: Badge)
    ensures b.title == "General" <==> ParseCategory(category).None? || category == "general"
  {
    if category == "coding" then Badge("Coding", "bg-blue-500/10 text-blue-400 border-blue-500/20")
    else if category == "bug-fixing" then Badge("Bug Fix", "bg-red-500/10 text-red-400 border-red-500/20")
    else if category == "frontend" then Badge("Frontend", "bg-purple-500/10 text-purple-400 border-purple-500/20")
    else if category == "backend" then Badge("Backend", "bg-green-500/10 text-green-400 border-green-500/20")
    else Badge("General", "bg-gray-500/10 text-gray-400 border-gray-500/20")
  }

  /** Every stored category has its own badge: the five titles are distinct, so no stored record falls back. */
  lemma {:induction false} StoredCategoriesHaveOwnBadge(a: Category, b: Category)
    ensures CategoryConfig(CategoryName(a)) == CategoryConfig(CategoryName(b)) ==> a == b
  {
  }
}
