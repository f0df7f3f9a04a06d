/** The frontend questionnaire: its record, initial value, field update and list toggles. */
module FrontendQuestions {
  import opened ListToggle

  datatype FrontendData = FrontendData(
    kind: string,
    name: string,
    designRef: string,
    interactions: seq<string>,
    breakpoints: seq<string>,
    accessibility: string)

  const InitialFrontendData := FrontendData("Component", "", "", [], [], "WCAG AA")

  datatype FieldName = Kind | Name | DesignRef | Interactions | Breakpoints | Accessibility

  datatype FieldValue =
    | KindValue(kind: string)
    | NameValue(name: string)
    | DesignRefValue(ref: string)
    | InteractionsValue(items: seq<string>)
    | BreakpointsValue(items: seq<string>)
    | AccessibilityValue(level: string)

  /** The two list fields `toggleList` accepts. */
  datatype ListField = InteractionsList | BreakpointsList

  function NameOf(v: FieldValue): FieldName {
    match v
    case KindValue(_) => Kind
    case NameValue(_) => Name
    case DesignRefValue(_) => DesignRef
    case InteractionsValue(_) => Interactions
    case BreakpointsValue(_) => Breakpoints
    case AccessibilityValue(_) => Accessibility
  }

  function Get(d: FrontendData, f: FieldName): (v: FieldValue)
    ensures NameOf(v) == f
  {
    match f
    case Kind => KindValue(d.kind)
    case Name => NameValue(d.name)
    case DesignRef => DesignRefValue(d.designRef)
    case Interactions => InteractionsValue(d.interactions)
    case Breakpoints => BreakpointsValue(d.breakpoints)
    case Accessibility => AccessibilityValue(d.accessibility)
  }

  /** `update`: a copy with the named field replaced and every other field equal. */
  function Update(d: FrontendData, v: FieldValue): (r: FrontendData)
    ensures Get(r, NameOf(v)) == v
    ensures forall f :: f != NameOf(v) ==> Get(r, f) == Get(d, f)
  {
    match v
    case KindValue(k) => d.(kind := k)
    case NameValue(n) => d.(name := n)
    case DesignRefValue(ref) => d.(designRef := ref)
    case InteractionsValue(items) => d.(interactions := items)
    case BreakpointsValue(items) => d.(breakpoints := items)
    case AccessibilityValue(level) => d.(accessibility := level)
  }

  function FieldOf(l: ListField): FieldName {
    match l
    case InteractionsList => Interactions
    case BreakpointsList => Breakpoints
  }

  function ListOf(d: FrontendData, l: ListField): seq<string> {
    match l
    case InteractionsList => d.interactions
    case BreakpointsList => d.breakpoints
  }

  /** `toggleList`: the chosen list is toggled; the other list and every scalar field stay. */
  function ToggleList(d: FrontendData, l: ListField, item: string): (r: FrontendData)
    ensures ListOf(r, l) == Toggle(ListOf(d, l), item)
    ensures forall f :: f != FieldOf(l) ==> Get(r, f) == Get(d, f)
  {
    match l
    case InteractionsList => Update(d, InteractionsValue(Toggle(d.interactions, item)))
    case BreakpointsList => Update(d, BreakpointsValue(Toggle(d.breakpoints, item)))
  }

  /** Toggling one list never touches the other. */
  lemma ToggleListIndependent(d: FrontendData, item: string)
    ensures ToggleList(d, InteractionsList, item).breakpoints == d.breakpoints
    ensures ToggleList(d, BreakpointsList, item).interactions == d.interactions
  {
    assert Get(ToggleList(d, InteractionsList, item), Breakpoints) == Get(d, Breakpoints);
    assert Get(ToggleList(d, BreakpointsList, item), Interactions) == Get(d, Interactions);
  }

  /** Toggling an absent item twice restores the data. */
  lemma {:induction false} ToggleListTwice(d: FrontendData, l: ListField, item: string)
    requires item !in ListOf(d, l)
    ensures ToggleList(ToggleList(d, l, item), l, item) == d
  {
    ToggleTwiceAbsent(ListOf(d, l), item);
  }

  lemma {:induction false} ToggleListDistinct(d: FrontendData, l: ListField, item: string)
    requires Distinct(ListOf(d, l))
    ensures Distinct(ListOf(ToggleList(d, l, item), l))
  {
    ToggleKeepsDistinct(ListOf(d, l), item);
  }
}
