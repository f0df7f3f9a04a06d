/** The project-context form: its record, default, field update and framework toggle. */
module ProjectContextForm {
  import opened ListToggle

  datatype ProjectType = New | Existing

  datatype ProjectContext = ProjectContext(
    projectType: ProjectType,
    frameworks: seq<string>,
    styling: string,
    uiLibrary: string,
    stateManagement: string,
    isTypescript: bool)

  const DefaultContext := ProjectContext(New, ["Next.js"], "Tailwind CSS", "shadcn/ui", "None", true)

  datatype FieldName = ProjectTypeField | Frameworks | Styling | UiLibrary | StateManagement | IsTypescript

  /** A field together with a value of its type. */
  datatype FieldValue =
    | ProjectTypeValue(p: ProjectType)
    | FrameworksValue(fs: seq<string>)
    | StylingValue(styling: string)
    | UiLibraryValue(lib: string)
    | StateManagementValue(sm: string)
    | IsTypescriptValue(ts: bool)

  function NameOf(v: FieldValue): FieldName {
    match v
    case ProjectTypeValue(_) => ProjectTypeField
    case FrameworksValue(_) => Frameworks
    case StylingValue(_) => Styling
    case UiLibraryValue(_) => UiLibrary
    case StateManagementValue(_) => StateManagement
    case IsTypescriptValue(_) => IsTypescript
  }

  /** Reads one field. */
  function Get(c: ProjectContext, f: FieldName): (v: FieldValue)
    ensures NameOf(v) == f
  {
    match f
    case ProjectTypeField => ProjectTypeValue(c.projectType)
    case Frameworks => FrameworksValue(c.frameworks)
    case Styling => StylingValue(c.styling)
    case UiLibrary => UiLibraryValue(c.uiLibrary)
    case StateManagement => StateManagementValue(c.stateManagement)
    case IsTypescript => IsTypescriptValue(c.isTypescript)
  }

  /** `updateField`: a copy with the named field replaced and every other field equal. */
  function UpdateField(c: ProjectContext, v: FieldValue): (r: ProjectContext)
    ensures Get(r, NameOf(v)) == v
    ensures forall f :: f != NameOf(v) ==> Get(r, f) == Get(c, f)
  {
    match v
    case ProjectTypeValue(p) => c.(projectType := p)
    case FrameworksValue(fs) => c.(frameworks := fs)
    case StylingValue(s) => c.(styling := s)
    case UiLibraryValue(l) => c.(uiLibrary := l)
    case StateManagementValue(sm) => c.(stateManagement := sm)
    case IsTypescriptValue(ts) => c.(isTypescript := ts)
  }

  /** `toggleFramework`: the frameworks list is toggled and nothing else changes. */
  function ToggleFramework(c: ProjectContext, fw: string): (r: ProjectContext)
    ensures r.frameworks == Toggle(c.frameworks, fw)
    ensures forall f :: f != Frameworks ==> Get(r, f) == Get(c, f)
  {
    UpdateField(c, FrameworksValue(Toggle(c.frameworks, fw)))
  }

  /** Toggling an absent framework twice restores the form. */
  lemma {:induction false} ToggleFrameworkTwice(c: ProjectContext, fw: string)
    requires fw !in c.frameworks
    ensures ToggleFramework(ToggleFramework(c, fw), fw) == c
  {
    ToggleTwiceAbsent(c.frameworks, fw);
  }

  /** A frameworks list without duplicates stays so. */
  lemma {:induction false} ToggleFrameworkDistinct(c: ProjectContext, fw: string)
    requires Distinct(c.frameworks)
    ensures Distinct(ToggleFramework(c, fw).frameworks)
  {
    ToggleKeepsDistinct(c.frameworks, fw);
  }

  /** Toggling one framework leaves the others present, in their order. */
  lemma {:induction false} ToggleFrameworkKeepsOrder(c: ProjectContext, fw: string)
    ensures RemoveAll(ToggleFramework(c, fw).frameworks, fw) == RemoveAll(c.frameworks, fw)
  {
    ToggleKeepsOthersInOrder(c.frameworks, fw);
  }
}
