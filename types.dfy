/** The record shapes and enumerations shared by the builder: code snippets and the
    global variables they declare, workspace blocks, library tabs, event handlers and
    documentation entries. */
module Types {

  /** A field that may be absent (`?:` in the record shape). */
  datatype Option<T> = None | Some(value: T)
  {
    function GetOr(default: T): T
    {
      match this
      case Some(v) => v
      case None => default
    }
  }

  /** The declared kind of a global variable. */
  datatype GlobalKind = IntKind | DoubleKind | StringKind | BoolKind | DatetimeKind

  /** A global variable's value: a number, a string or a boolean. `NaN` is the number
      that `parseInt`/`parseFloat` produce for text they cannot read. */
  datatype Value = Num(num: real) | NaN | Str(str: string) | Bool(b: bool)

  /** JavaScript `a === b` on values: same variant and same payload, but `NaN` equals
      nothing, itself included. */
  predicate StrictEquals(a: Value, b: Value)
  {
    !a.NaN? && a == b
  }

  /** JavaScript truthiness of a value, as used by `!value`. */
  predicate Truthy(v: Value)
  {
    match v
    case Num(n) => n != 0.0
    case NaN => false
    case Str(s) => s != ""
    case Bool(b) => b
  }

  datatype GlobalVariable = GlobalVariable(
    id: string,
    name: string,
    kind: GlobalKind,
    defaultValue: Value,
    currentValue: Value,
    description: string,
    min: Option<real>,
    max: Option<real>,
    step: Option<real>,
    usedBy: seq<string>,   // ids of the blocks that use this global
    isModified: bool)

  /** A code snippet. An absent `isCustom` is `false`, absent `globalVariables` are `[]`. */
  datatype Snippet = Snippet(
    id: string,
    name: string,
    description: string,
    code: string,
    category: string,
    parameters: Option<seq<string>>,
    returnType: Option<string>,
    isCustom: bool,
    globalVariables: seq<GlobalVariable>)

  datatype LibraryTab = LibraryTab(id: string, name: string, icon: Option<string>, isDefault: bool)

  datatype Section = GlobalsSection | HandlersSection | MainSection

  /** A snippet placed in the workspace; it carries a full copy of the snippet. */
  datatype WorkspaceBlock = WorkspaceBlock(
    id: string,
    snippetId: string,
    snippet: Snippet,
    position: nat,
    isExpanded: bool,
    section: Section)

  datatype HandlerCategory = Lifecycle | Trading | Testing | Interaction | Data

  datatype EventHandler = EventHandler(
    id: string,
    name: string,
    displayName: string,
    description: string,
    useCase: string,
    required: bool,
    enabled: bool,
    category: HandlerCategory,
    dependencies: Option<seq<string>>,
    signature: string)

  datatype DocCategory = Strategy | Parameter | Setup | Troubleshooting | Journal | General

  datatype Documentation = Documentation(
    id: string,
    title: string,
    category: DocCategory,
    content: string,
    tags: seq<string>,
    createdAt: string,
    updatedAt: string,
    isPinned: bool)

  /** The fields of a documentation entry that its editor produces
      (all but `id`, `createdAt` and `updatedAt`). */
  datatype DocData = DocData(
    title: string,
    category: DocCategory,
    content: string,
    tags: seq<string>,
    isPinned: bool)
}
