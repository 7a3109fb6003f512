/**
 * The helpers of `process_data` that read one `credits` cell (src/process_data.py,
 * lines 105-127): `get_director`, `get_cast` and the two size lambdas. A `credits`
 * cell that is not an object gives "" and sizes 0; the predicates below say on
 * which objects the helpers return instead of raising.
 */
module Credits {
  import opened Values
  import opened Text

  const CastShown: nat := 5

  /** `crew.get('job') == 'Director'` on an entry that is an object. */
  predicate IsDirectorEntry(e: Value)
  {
    e.Dict? && Get(e.fields, "job") == Str("Director")
  }

  /**
   * The loop of `get_director` reaches a director, or the end of the list, without
   * calling `.get` on an entry that is not an object.
   */
  predicate CrewScannable(crew: seq<Value>)
  {
    crew == [] || (crew[0].Dict? && (IsDirectorEntry(crew[0]) || CrewScannable(crew[1..])))
  }

  /** `get_director` returns on this `credits` cell: iterating a text or an object crew only works when it is empty. */
  predicate DirectorDefined(x: Value)
  {
    x.Dict? && "crew" in x.fields ==>
      match x.fields["crew"]
      case List(items) => CrewScannable(items)
      case Str(s) => s == ""
      case Dict(m) => m == map[]
      case _ => false
  }

  /** The `name` of the first director entry (absent name: missing), else "". */
  function FirstDirector(crew: seq<Value>): (d: Value)
    ensures (forall e :: e in crew ==> !IsDirectorEntry(e)) ==> d == Str("")
  {
    if crew == [] then Str("")
    else if IsDirectorEntry(crew[0]) then Get(crew[0].fields, "name")
    else FirstDirector(crew[1..])
  }

  /** `get_director(x)`. */
  function Director(x: Value): Value
  {
    if x.Dict? && "crew" in x.fields && x.fields["crew"].List? then FirstDirector(x.fields["crew"].items)
    else Str("")
  }

  /** The director is the name of the first crew entry whose job is "Director". */
  lemma {:induction false} FirstDirectorIsFirstMatch(crew: seq<Value>, k: nat)
    requires k < |crew| && IsDirectorEntry(crew[k])
    requires forall j :: 0 <= j < k ==> !IsDirectorEntry(crew[j])
    ensures FirstDirector(crew) == Get(crew[k].fields, "name")
    decreases k
  {
    if k > 0 {
      assert !IsDirectorEntry(crew[0]);
      FirstDirectorIsFirstMatch(crew[1..], k - 1);
    }
  }

  /** `get_director` on a whole cell: the first director's name, or "" when there is none or no crew. */
  lemma DirectorOfCredits(x: Value)
    ensures !(x.Dict? && "crew" in x.fields) ==> Director(x) == Str("")
    ensures x.Dict? && "crew" in x.fields && x.fields["crew"].List? ==>
      var crew := x.fields["crew"].items;
      && ((forall e :: e in crew ==> !IsDirectorEntry(e)) ==> Director(x) == Str(""))
      && (forall k :: 0 <= k < |crew| && IsDirectorEntry(crew[k]) && (forall j :: 0 <= j < k ==> !IsDirectorEntry(crew[j]))
            ==> Director(x) == Get(crew[k].fields, "name"))
  {
    if x.Dict? && "crew" in x.fields && x.fields["crew"].List? {
      var crew := x.fields["crew"].items;
      forall k | 0 <= k < |crew| && IsDirectorEntry(crew[k]) && (forall j :: 0 <= j < k ==> !IsDirectorEntry(crew[j]))
        ensures Director(x) == Get(crew[k].fields, "name")
      {
        FirstDirectorIsFirstMatch(crew, k);
      }
    }
  }

  /** A cast entry whose `name` can be read and joined. */
  predicate NamedEntry(e: Value)
  {
    e.Dict? && "name" in e.fields && e.fields["name"].Str?
  }

  /** The first `CastShown` entries of a cast list (`x['cast'][:5]`). */
  function TopCast(items: seq<Value>): (top: seq<Value>)
    ensures |top| == if |items| < CastShown then |items| else CastShown
    ensures top == items[..|top|]
  {
    if |items| <= CastShown then items else items[..CastShown]
  }

  /** `get_cast` returns on this cell: a cast list whose first entries are named objects, or an empty text. */
  predicate CastDefined(x: Value)
  {
    x.Dict? && "cast" in x.fields ==>
      match x.fields["cast"]
      case List(items) => forall e :: e in TopCast(items) ==> NamedEntry(e)
      case Str(s) => s == ""
      case _ => false
  }

  function NameText(e: Value): string
  {
    if NamedEntry(e) then e.fields["name"].s else ""
  }

  /** The names of the shown cast entries, in order. */
  function CastNames(items: seq<Value>): (ns: seq<string>)
    ensures |ns| == |TopCast(items)| && |ns| <= CastShown
    ensures forall i :: 0 <= i < |ns| ==> ns[i] == NameText(items[i])
  {
    var top := TopCast(items);
    seq(|top|, i requires 0 <= i < |top| => NameText(top[i]))
  }

  /** `get_cast(x)`. */
  function Cast(x: Value): Value
  {
    if x.Dict? && "cast" in x.fields && x.fields["cast"].List? then Str(Join(CastNames(x.fields["cast"].items)))
    else Str("")
  }

  /** Every one of the first five cast names can be found in the `cast` text. */
  lemma CastShowsTopNames(x: Value, i: nat)
    requires x.Dict? && "cast" in x.fields && x.fields["cast"].List?
    requires i < |x.fields["cast"].items| && i < CastShown
    ensures Cast(x).Str? && Contains(Cast(x).s, NameText(x.fields["cast"].items[i]))
  {
    var ns := CastNames(x.fields["cast"].items);
    assert ns[i] == NameText(x.fields["cast"].items[i]);
    JoinContainsPart(ns, ns[i]);
  }

  /**
   * When no name holds a `|`, the `cast` text splits back into exactly the first
   * (at most five) cast names, in order.
   */
  lemma CastSplitsBack(x: Value)
    requires x.Dict? && "cast" in x.fields && x.fields["cast"].List? && x.fields["cast"].items != []
    requires PipeFree(CastNames(x.fields["cast"].items))
    ensures Cast(x).Str?
    ensures var ns := Split(Cast(x).s);
      && |ns| == |TopCast(x.fields["cast"].items)|
      && forall i :: 0 <= i < |ns| ==> ns[i] == NameText(x.fields["cast"].items[i])
  {
    SplitJoin(CastNames(x.fields["cast"].items));
  }

  /** `len(v)` is defined for lists, texts and objects. */
  predicate Sized(v: Value)
  {
    v.List? || v.Str? || v.Dict?
  }

  function Length(v: Value): nat
  {
    match v
    case List(items) => |items|
    case Str(s) => |s|
    case Dict(m) => |m|
    case _ => 0
  }

  /** The size lambdas return on this cell: the entry under `key` is absent or has a length. */
  predicate SizeDefined(x: Value, key: string)
  {
    x.Dict? && key in x.fields ==> Sized(x.fields[key])
  }

  /** `len(x.get(key, [])) if isinstance(x, dict) else 0`. */
  function SizeOf(x: Value, key: string): (n: Value)
    ensures n.Num? && n.n >= 0.0
    ensures !x.Dict? || key !in x.fields ==> n == Num(0.0)
    ensures x.Dict? && key in x.fields && x.fields[key].List? ==> n == Num(|x.fields[key].items| as real)
  {
    if x.Dict? && key in x.fields then Num(Length(x.fields[key]) as real) else Num(0.0)
  }

  /** None of the four helpers raises on this cell. */
  predicate CreditsDefined(x: Value)
  {
    DirectorDefined(x) && CastDefined(x) && SizeDefined(x, "cast") && SizeDefined(x, "crew")
  }
}
