/** The shared records and enumerations of the application (types.ts). */
module Types {
  import opened Wrappers

  /** The five goal categories; each carries its Dutch string value. */
  datatype Category = Personal | Work | Health | Finance | Learning {

    /** The enum's string value: what is stored, displayed and compared. */
    function Label(): string {
      match this
      case Personal => "Persoonlijk"
      case Work => "Werk"
      case Health => "Gezondheid"
      case Finance => "Financi\U{00EB}n"
      case Learning => "Leren"
    }
  }

  /** `Object.values(Category)`: the categories in declaration order. */
  const AllCategories: seq<Category> := [Personal, Work, Health, Finance, Learning]

  /** The category whose string value is `s`, if any. */
  function CategoryOfLabel(s: string): (r: Option<Category>)
    ensures r.Some? ==> r.value.Label() == s
    ensures forall c: Category :: c.Label() == s ==> r == Some(c)
  {
    if s == "Persoonlijk" then Some(Personal)
    else if s == "Werk" then Some(Work)
    else if s == "Gezondheid" then Some(Health)
    else if s == "Financi\U{00EB}n" then Some(Finance)
    else if s == "Leren" then Some(Learning)
    else None
  }

  /** Distinct categories have distinct string values. */
  lemma LabelInjective(c: Category, d: Category)
    ensures c.Label() == d.Label() <==> c == d
  {
    assert CategoryOfLabel(c.Label()) == Some(c);
  }

  /** Every category appears in `AllCategories`. */
  lemma CategoryListed(c: Category)
    ensures c in AllCategories
  {
    match c
    case Personal => assert AllCategories[0] == c;
    case Work => assert AllCategories[1] == c;
    case Health => assert AllCategories[2] == c;
    case Finance => assert AllCategories[3] == c;
    case Learning => assert AllCategories[4] == c;
  }

  /** There are exactly five categories, all listed, with five distinct string values. */
  lemma CategoriesAreFiveAndDistinct()
    ensures |AllCategories| == 5
    ensures forall c: Category :: c in AllCategories
    ensures forall i, j :: 0 <= i < j < |AllCategories| ==>
      AllCategories[i].Label() != AllCategories[j].Label()
  {
    forall c: Category ensures c in AllCategories {
      CategoryListed(c);
    }
    forall i, j | 0 <= i < j < |AllCategories|
      ensures AllCategories[i].Label() != AllCategories[j].Label()
    {
      var c := AllCategories[i];
      assert CategoryOfLabel(c.Label()) == Some(c);
    }
  }

  /** A goal as stored in the list. */
  datatype Goal = Goal(id: string, title: string, category: Category, completed: bool, createdAt: int)

  /** A web citation attached to an assistant message. */
  datatype Source = Source(title: string, uri: string)

  /** Who wrote a chat message; the string value is what the remote service receives. */
  datatype Role = User | Model {
    function Key(): string {
      match this
      case User => "user"
      case Model => "model"
    }
  }

  /** A role is sent as "user" or "model", and the two are told apart. */
  lemma RoleKeys(r: Role, q: Role)
    ensures r.Key() == "user" || r.Key() == "model"
    ensures r.Key() == q.Key() <==> r == q
  {
  }

  /** One message of the chat transcript; only assistant messages carry sources. */
  datatype ChatMessage = ChatMessage(role: Role, text: string, sources: Option<seq<Source>>)

  /** The three assistant response modes. */
  datatype ChatMode = Standard | Research | Thinking {
    function Key(): string {
      match this
      case Standard => "STANDARD"
      case Research => "RESEARCH"
      case Thinking => "THINKING"
    }
  }

  /** The selected view: four pseudo-filters or one category. */
  datatype FilterType = All | Active | Completed | Chat | OfCategory(category: Category) {

    /** The string the application stores for this filter. */
    function Key(): string {
      match this
      case All => "ALL"
      case Active => "ACTIVE"
      case Completed => "COMPLETED"
      case Chat => "CHAT"
      case OfCategory(c) => c.Label()
    }
  }

  /** The string keys of the four pseudo-filters. */
  const PseudoFilterKeys: set<string> := {"ALL", "ACTIVE", "COMPLETED", "CHAT"}

  /** The filter whose string key is `s`, if any. */
  function FilterOfKey(s: string): (r: Option<FilterType>)
    ensures r.Some? ==> r.value.Key() == s
    ensures forall f: FilterType :: f.Key() == s ==> r == Some(f)
  {
    if s == "ALL" then Some(All)
    else if s == "ACTIVE" then Some(Active)
    else if s == "COMPLETED" then Some(Completed)
    else if s == "CHAT" then Some(Chat)
    else match CategoryOfLabel(s)
      case Some(c) => Some(OfCategory(c))
      case None => None
  }

  /** No category's string value coincides with a pseudo-filter key. */
  lemma CategoryLabelsAvoidPseudoKeys(c: Category)
    ensures c.Label() !in PseudoFilterKeys
  {
  }

  /** A filter is a pseudo-filter exactly when its key is a pseudo-filter key. */
  lemma FilterKeyClassifies(f: FilterType)
    ensures f.OfCategory? <==> f.Key() !in PseudoFilterKeys
    ensures FilterOfKey(f.Key()) == Some(f)
  {
  }

  /** The nine filter keys are pairwise distinct. */
  lemma FilterKeysDistinct(f: FilterType, g: FilterType)
    ensures f.Key() == g.Key() <==> f == g
  {
    assert FilterOfKey(f.Key()) == Some(f);
  }

  /** The mode strings are distinct. */
  lemma ChatModeKeysDistinct(m: ChatMode, n: ChatMode)
    ensures m.Key() == n.Key() <==> m == n
  {
  }
}
