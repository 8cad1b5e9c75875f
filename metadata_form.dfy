/**
 * The metadata form's editing helpers. Each helper returns the metadata
 * record the form hands to `onChange`; the record the caller passed in is
 * never changed.
 */
module MetadataForm {
  import opened Text
  import opened Lists
  import opened Dict
  import opened Records
  import opened YamlGenerator

  // ---------------------------------------------------------------------------
  // Fields

  /** The keys of a metadata record. */
  datatype Field =
    | PromptName | BaseStyle | AspectRatio | RoomDescription | CameraSetup
    | KeyElements | ElementCategories | NegativePrompts

  /** A value one of the record's fields can hold. */
  datatype FieldValue =
    | TextValue(text: string)
    | ListValue(list: seq<string>)
    | CategoriesValue(categories: Categories)

  /** The value has the type the field is declared with. */
  predicate Admits(field: Field, value: FieldValue) {
    match field
    case KeyElements | NegativePrompts => value.ListValue?
    case ElementCategories => value.CategoriesValue?
    case _ => value.TextValue?
  }

  /** `metadata[field]`. */
  function Get(m: MetadataFields, field: Field): (v: FieldValue)
    ensures Admits(field, v)
  {
    match field
    case PromptName => TextValue(m.promptName)
    case BaseStyle => TextValue(m.baseStyle)
    case AspectRatio => TextValue(m.aspectRatio)
    case RoomDescription => TextValue(m.roomDescription)
    case CameraSetup => TextValue(m.cameraSetup)
    case KeyElements => ListValue(m.keyElements)
    case ElementCategories => CategoriesValue(m.elementCategories)
    case NegativePrompts => ListValue(m.negativePrompts)
  }

  /** Two records that agree on every field are the same record. */
  lemma GetDetermines(m: MetadataFields, n: MetadataFields)
    requires forall f :: Get(m, f) == Get(n, f)
    ensures m == n
  {
    assert Get(m, PromptName) == Get(n, PromptName) && Get(m, BaseStyle) == Get(n, BaseStyle);
    assert Get(m, AspectRatio) == Get(n, AspectRatio) && Get(m, RoomDescription) == Get(n, RoomDescription);
    assert Get(m, CameraSetup) == Get(n, CameraSetup) && Get(m, KeyElements) == Get(n, KeyElements);
    assert Get(m, ElementCategories) == Get(n, ElementCategories) && Get(m, NegativePrompts) == Get(n, NegativePrompts);
  }

  /** `updateField`: `{ ...metadata, [field]: value }`, exactly one field replaced. */
  function UpdateField(m: MetadataFields, field: Field, value: FieldValue): (r: MetadataFields)
    requires Admits(field, value)
    ensures Get(r, field) == value
    ensures forall f :: f != field ==> Get(r, f) == Get(m, f)
  {
    match field
    case PromptName => m.(promptName := value.text)
    case BaseStyle => m.(baseStyle := value.text)
    case AspectRatio => m.(aspectRatio := value.text)
    case RoomDescription => m.(roomDescription := value.text)
    case CameraSetup => m.(cameraSetup := value.text)
    case KeyElements => m.(keyElements := value.list)
    case ElementCategories => m.(elementCategories := value.categories)
    case NegativePrompts => m.(negativePrompts := value.list)
  }

  /** Writing a field's own value back changes nothing. */
  lemma UpdateFieldSame(m: MetadataFields, field: Field)
    ensures UpdateField(m, field, Get(m, field)) == m
  {
    GetDetermines(UpdateField(m, field, Get(m, field)), m);
  }

  /** Of two updates of the same field, the later one wins. */
  lemma UpdateFieldTwice(m: MetadataFields, field: Field, v: FieldValue, w: FieldValue)
    requires Admits(field, v) && Admits(field, w)
    ensures UpdateField(UpdateField(m, field, v), field, w) == UpdateField(m, field, w)
  {
    GetDetermines(UpdateField(UpdateField(m, field, v), field, w), UpdateField(m, field, w));
  }

  // ---------------------------------------------------------------------------
  // The two string lists

  /** `'key_elements' | 'negative_prompts'`. */
  type ListField = f: Field | f == KeyElements || f == NegativePrompts witness KeyElements

  function List(m: MetadataFields, field: ListField): seq<string> {
    Get(m, field).list
  }

  /** `addToArray`: one empty element appended to the chosen list; nothing else changes. */
  function AddToArray(m: MetadataFields, field: ListField): (r: MetadataFields)
    ensures List(r, field) == List(m, field) + [""]
    ensures forall f :: f != field ==> Get(r, f) == Get(m, f)
  {
    UpdateField(m, field, ListValue(List(m, field) + [""]))
  }

  /** `updateArrayItem`: copies the list, overwrites one position, and stores the copy. */
  method UpdateArrayItem(m: MetadataFields, field: ListField, index: int, value: string) returns (r: MetadataFields)
    requires 0 <= index < |List(m, field)|
    ensures |List(r, field)| == |List(m, field)| && List(r, field)[index] == value
    ensures forall i :: 0 <= i < |List(m, field)| && i != index ==> List(r, field)[i] == List(m, field)[i]
    ensures forall f :: f != field ==> Get(r, f) == Get(m, f)
  {
    var newArray := List(m, field);
    newArray := newArray[index := value];
    r := UpdateField(m, field, ListValue(newArray));
  }

  /** `removeFromArray`: the element at `index` dropped, the others kept in order; any other index changes nothing. */
  function RemoveFromArray(m: MetadataFields, field: ListField, index: int): (r: MetadataFields)
    ensures 0 <= index < |List(m, field)| ==>
      && |List(r, field)| == |List(m, field)| - 1
      && (forall j :: 0 <= j < |List(r, field)| ==> List(r, field)[j] == List(m, field)[if index <= j then j + 1 else j])
      && multiset(List(r, field)) + multiset{List(m, field)[index]} == multiset(List(m, field))
    ensures !(0 <= index < |List(m, field)|) ==> r == m
    ensures forall f :: f != field ==> Get(r, f) == Get(m, f)
  {
    var xs := List(m, field);
    var newArray := WithoutIndex(xs, index);
    WithoutIndexAt(xs, index);
    if 0 <= index < |xs| then
      WithoutIndexCounts(xs, index);
      UpdateField(m, field, ListValue(newArray))
    else
      UpdateFieldSame(m, field);
      UpdateField(m, field, ListValue(newArray))
  }

  /** Removing the element `addToArray` just appended gives back the record. */
  lemma RemoveUndoesAdd(m: MetadataFields, field: ListField)
    ensures RemoveFromArray(AddToArray(m, field), field, |List(m, field)|) == m
  {
    var a := AddToArray(m, field);
    var r := RemoveFromArray(a, field, |List(m, field)|);
    assert List(r, field) == List(m, field);
    forall f ensures Get(r, f) == Get(m, f) {
      if f == field {
        assert Get(r, f) == ListValue(List(r, field));
      }
    }
    GetDetermines(r, m);
  }

  /** A blank element appended to a list never reaches the export. */
  lemma AddToArrayKeepsExport(m: MetadataFields, field: ListField, s: seq<TimelineSequence>)
    ensures Document(AddToArray(m, field), s) == Document(m, s)
  {
    var r := AddToArray(m, field);
    NonBlankSnoc(List(m, field), "");
    assert NonBlank(List(r, field)) == NonBlank(List(m, field));
    assert Get(r, ElementCategories) == Get(m, ElementCategories);
    assert MetadataHeader(r) == MetadataHeader(m) by {
      assert Get(r, PromptName) == Get(m, PromptName) && Get(r, BaseStyle) == Get(m, BaseStyle);
      assert Get(r, AspectRatio) == Get(m, AspectRatio) && Get(r, RoomDescription) == Get(m, RoomDescription);
      assert Get(r, CameraSetup) == Get(m, CameraSetup);
    }
    if field == KeyElements {
      assert Get(r, NegativePrompts) == Get(m, NegativePrompts);
    } else {
      assert Get(r, KeyElements) == Get(m, KeyElements);
    }
  }

  // ---------------------------------------------------------------------------
  // Categories

  /**
   * The names every plain object inherits from `Object.prototype`: looking
   * one of them up finds a truthy value even when the object has no such key.
   */
  const InheritedKeys: set<string> := {
    "constructor", "__proto__", "__defineGetter__", "__defineSetter__",
    "__lookupGetter__", "__lookupSetter__", "hasOwnProperty", "isPrototypeOf",
    "propertyIsEnumerable", "toLocaleString", "toString", "valueOf"}

  /** `categories[name]` is truthy: an own key (every list is truthy) or an inherited one. */
  predicate Truthy(c: Categories, name: string) {
    name in Keys(c) || name in InheritedKeys
  }

  /** `addToCategory`: creates the category as `[]` when it is missing, then appends an empty element to it. */
  method AddToCategory(m: MetadataFields, categoryName: string) returns (r: MetadataFields)
    requires categoryName in Keys(m.elementCategories) || categoryName !in InheritedKeys
    ensures r == m.(elementCategories := r.elementCategories)
    ensures Lookup(r.elementCategories, categoryName) ==
      match Lookup(m.elementCategories, categoryName)
      case Some(elements) => Some(elements + [""])
      case None => Some([""])
    ensures forall k :: k != categoryName ==> Lookup(r.elementCategories, k) == Lookup(m.elementCategories, k)
    ensures Keys(r.elementCategories) ==
      if categoryName in Keys(m.elementCategories) then Keys(m.elementCategories)
      else Keys(m.elementCategories) + [categoryName]
  {
    var newCategories := m.elementCategories;
    if !Truthy(newCategories, categoryName) {
      newCategories := Assign(newCategories, categoryName, []);
    }
    var existing := Lookup(newCategories, categoryName).value;
    assert existing == match Lookup(m.elementCategories, categoryName) case Some(elements) => elements case None => [];
    newCategories := Assign(newCategories, categoryName, existing + [""]);
    if Lookup(m.elementCategories, categoryName).None? {
      assert existing + [""] == [""];
    }
    r := UpdateField(m, ElementCategories, CategoriesValue(newCategories));
  }

  /** `updateCategoryItem`: overwrites one position of one category. */
  method UpdateCategoryItem(m: MetadataFields, categoryName: string, index: int, value: string) returns (r: MetadataFields)
    requires Lookup(m.elementCategories, categoryName).Some?
    requires 0 <= index < |Lookup(m.elementCategories, categoryName).value|
    ensures r == m.(elementCategories := r.elementCategories)
    ensures Keys(r.elementCategories) == Keys(m.elementCategories)
    ensures var before, after := Lookup(m.elementCategories, categoryName).value, Lookup(r.elementCategories, categoryName);
      && after.Some? && |after.value| == |before| && after.value[index] == value
      && forall i :: 0 <= i < |before| && i != index ==> after.value[i] == before[i]
    ensures forall k :: k != categoryName ==> Lookup(r.elementCategories, k) == Lookup(m.elementCategories, k)
  {
    var newCategories := m.elementCategories;
    var elements := Lookup(newCategories, categoryName).value;
    newCategories := Assign(newCategories, categoryName, elements[index := value]);
    r := UpdateField(m, ElementCategories, CategoriesValue(newCategories));
  }

  /** `removeCategoryItem`: one category loses the element at `index`; any other index changes nothing. */
  function RemoveCategoryItem(m: MetadataFields, categoryName: string, index: int): (r: MetadataFields)
    requires Lookup(m.elementCategories, categoryName).Some?
    ensures r == m.(elementCategories := r.elementCategories)
    ensures Keys(r.elementCategories) == Keys(m.elementCategories)
    ensures var before, after := Lookup(m.elementCategories, categoryName).value, Lookup(r.elementCategories, categoryName);
      && after.Some?
      && (0 <= index < |before| ==>
           && |after.value| == |before| - 1
           && forall j :: 0 <= j < |after.value| ==> after.value[j] == before[if index <= j then j + 1 else j])
      && (!(0 <= index < |before|) ==> after.value == before)
    ensures forall k :: k != categoryName ==> Lookup(r.elementCategories, k) == Lookup(m.elementCategories, k)
  {
    var elements := Lookup(m.elementCategories, categoryName).value;
    WithoutIndexAt(elements, index);
    m.(elementCategories := Assign(m.elementCategories, categoryName, WithoutIndex(elements, index)))
  }

  /** `removeCategory`: `delete` of one key; a name that is not a key changes nothing. */
  method RemoveCategory(m: MetadataFields, categoryName: string) returns (r: MetadataFields)
    ensures r == m.(elementCategories := r.elementCategories)
    ensures Lookup(r.elementCategories, categoryName) == None
    ensures forall k :: k != categoryName ==> Lookup(r.elementCategories, k) == Lookup(m.elementCategories, k)
    ensures categoryName in Keys(m.elementCategories) ==> |r.elementCategories| == |m.elementCategories| - 1
    ensures categoryName in Keys(m.elementCategories) ==>
      var i := IndexOf(m.elementCategories, categoryName);
      Keys(r.elementCategories) == Keys(m.elementCategories)[..i] + Keys(m.elementCategories)[i + 1..]
    ensures categoryName !in Keys(m.elementCategories) ==> r == m
  {
    var newCategories := m.elementCategories;
    newCategories := Remove(newCategories, categoryName);
    r := UpdateField(m, ElementCategories, CategoriesValue(newCategories));
  }

  // ---------------------------------------------------------------------------
  // Category names

  /** The characters a sanitised name is made of: `[a-z0-9_]`. */
  predicate IsNameChar(c: char) {
    ('a' <= c <= 'z') || ('0' <= c <= '9') || c == '_'
  }

  /** What `/[^\w\s]/g` leaves in place. */
  predicate WordOrSpace(c: char) {
    IsWordChar(c) || IsJsWhitespace(c)
  }

  /** `s.replace(/\s+/g, '_')`: every maximal run of whitespace becomes one underscore. */
  function CollapseWhitespace(s: string): (r: string)
    ensures forall i :: 0 <= i < |r| ==> !IsJsWhitespace(r[i])
    ensures forall i :: 0 <= i < |r| ==> r[i] == '_' || (r[i] in s && !IsJsWhitespace(r[i]))
    decreases |s|
  {
    if s == [] then []
    else if IsJsWhitespace(s[0]) then "_" + CollapseWhitespace(TrimStart(s))
    else [s[0]] + CollapseWhitespace(s[1..])
  }

  /** A string without whitespace has no run to collapse. */
  lemma {:induction false} CollapseWithoutWhitespace(s: string)
    requires forall i :: 0 <= i < |s| ==> !IsJsWhitespace(s[i])
    ensures CollapseWhitespace(s) == s
    decreases |s|
  {
    if s != [] {
      assert forall i :: 1 <= i < |s| ==> s[1..][i - 1] == s[i];
      CollapseWithoutWhitespace(s[1..]);
    }
  }

  /** A non-empty run of whitespace becomes a single `_`. */
  lemma CollapseRun(w: string)
    requires w != [] && IsBlank(w)
    ensures CollapseWhitespace(w) == "_"
  {
    TrimStartBlank(w, []);
    assert w + [] == w;
  }

  /**
   * Collapsing works piece by piece across a boundary that does not split a
   * whitespace run. With `CollapseRun` and `CollapseWithoutWhitespace` this
   * pins the function down: characters other than whitespace are kept in
   * order, and each maximal run of whitespace becomes one `_`.
   */
  lemma {:induction false} CollapseConcat(a: string, b: string)
    requires a == [] || b == [] || !IsJsWhitespace(a[|a| - 1]) || !IsJsWhitespace(b[0])
    ensures CollapseWhitespace(a + b) == CollapseWhitespace(a) + CollapseWhitespace(b)
    decreases |a|
  {
    if a == [] {
      assert a + b == b;
    } else if b == [] {
      assert a + b == a;
    } else if !IsJsWhitespace(a[0]) {
      assert (a + b)[0] == a[0] && (a + b)[1..] == a[1..] + b;
      CollapseConcat(a[1..], b);
    } else if IsBlank(a) {
      assert (a + b)[0] == a[0];
      TrimStartBlank(a, b);
      CollapseRun(a);
    } else {
      assert (a + b)[0] == a[0];
      TrimStartConcat(a, b);
      var t := TrimStart(a);
      assert t[|t| - 1] == a[|a| - 1];
      CollapseConcat(t, b);
      ConcatAssoc("_", CollapseWhitespace(t), CollapseWhitespace(b));
    }
  }

  /**
   * Collapsing keeps, in order, every character a test picks out, provided
   * that test picks neither whitespace nor `_`.
   */
  lemma {:induction false} CollapseFilter(s: string, keep: char -> bool)
    requires forall c :: keep(c) ==> !IsJsWhitespace(c) && c != '_'
    ensures Filter(CollapseWhitespace(s), keep) == Filter(s, keep)
    decreases |s|
  {
    if s != [] {
      if IsJsWhitespace(s[0]) {
        var t := TrimStart(s);
        var lead := s[..|s| - |t|];
        assert lead + t == s;
        FilterEmpty(lead, keep);
        FilterConcat(lead, t, keep);
        assert Filter(s, keep) == Filter(t, keep);
        CollapseFilter(t, keep);
        FilterConcat("_", CollapseWhitespace(t), keep);
        assert "_"[1..] == [];
        assert Filter("_", keep) == [];
        assert CollapseWhitespace(s) == "_" + CollapseWhitespace(t);
      } else {
        CollapseFilter(s[1..], keep);
        FilterConcat([s[0]], CollapseWhitespace(s[1..]), keep);
        assert [s[0]][1..] == [];
        assert CollapseWhitespace(s) == [s[0]] + CollapseWhitespace(s[1..]);
      }
    }
  }

  /** Lower-case ASCII letters and digits: the characters of a name that are not its separators. */
  predicate IsAlnum(c: char) {
    ('a' <= c <= 'z') || ('0' <= c <= '9')
  }

  /** `sanitizeCategoryName`: lower-case, drop punctuation, turn whitespace runs into `_`, trim. */
  function SanitizeCategoryName(name: string): (r: string)
    ensures forall i :: 0 <= i < |r| ==> IsNameChar(r[i]) && !IsJsWhitespace(r[i])
  {
    var lowered := Lower(name);
    var stripped := Filter(lowered, WordOrSpace);
    var collapsed := CollapseWhitespace(stripped);
    TrimWithoutWhitespace(collapsed);
    Trim(collapsed)
  }

  /** The final `trim` never removes anything: whitespace at either end has already become `_`. */
  lemma SanitizeTrimIsNoOp(name: string)
    ensures SanitizeCategoryName(name) == CollapseWhitespace(Filter(Lower(name), WordOrSpace))
  {
    TrimWithoutWhitespace(CollapseWhitespace(Filter(Lower(name), WordOrSpace)));
  }

  /**
   * Sanitising keeps every lower-case ASCII letter and digit of the
   * lower-cased name, in order; besides them the result holds only the `_`
   * separators (the contract of `SanitizeCategoryName`).
   */
  lemma SanitizeKeepsAlnum(name: string)
    ensures Filter(SanitizeCategoryName(name), IsAlnum) == Filter(Lower(name), IsAlnum)
  {
    var lowered := Lower(name);
    var stripped := Filter(lowered, WordOrSpace);
    SanitizeTrimIsNoOp(name);
    assert SanitizeCategoryName(name) == CollapseWhitespace(stripped);
    CollapseFilter(stripped, IsAlnum);
    FilterFilter(lowered, WordOrSpace, IsAlnum);
  }

  /** A name already made of `[a-z0-9_]` passes through every step unchanged. */
  lemma SanitizeKeepsNames(name: string)
    requires forall i :: 0 <= i < |name| ==> IsNameChar(name[i])
    ensures SanitizeCategoryName(name) == name
  {
    assert forall i :: 0 <= i < |name| ==> !('A' <= name[i] <= 'Z') && name[i] != '\U{130}' && name[i] != '\U{212A}';
    LowerUnchanged(name);
    assert forall i :: 0 <= i < |name| ==> WordOrSpace(name[i]);
    FilterAllKept(name, WordOrSpace);
    assert forall i :: 0 <= i < |name| ==> !IsJsWhitespace(name[i]);
    CollapseWithoutWhitespace(name);
    TrimWithoutWhitespace(name);
  }

  /** A name is left as it is exactly when it is already made of `[a-z0-9_]`. */
  lemma SanitizeFixedPoints(name: string)
    ensures SanitizeCategoryName(name) == name <==> forall i :: 0 <= i < |name| ==> IsNameChar(name[i])
  {
    if forall i :: 0 <= i < |name| ==> IsNameChar(name[i]) {
      SanitizeKeepsNames(name);
    }
  }

  /** Sanitising twice gives what sanitising once does. */
  lemma SanitizeIdempotent(name: string)
    ensures SanitizeCategoryName(SanitizeCategoryName(name)) == SanitizeCategoryName(name)
  {
    SanitizeFixedPoints(SanitizeCategoryName(name));
  }

  /**
   * `addCategory` with the name the user typed: adds an empty category under
   * the sanitised name when that is non-empty and not already truthy in the
   * categories; otherwise changes nothing.
   */
  method AddCategory(m: MetadataFields, categoryName: string) returns (r: MetadataFields)
    ensures var name := SanitizeCategoryName(categoryName);
      if name != "" && !Truthy(m.elementCategories, name) then
        && r == m.(elementCategories := r.elementCategories)
        && Keys(r.elementCategories) == Keys(m.elementCategories) + [name]
        && Lookup(r.elementCategories, name) == Some([])
        && forall k :: k != name ==> Lookup(r.elementCategories, k) == Lookup(m.elementCategories, k)
      else r == m
  {
    r := m;
    if categoryName != "" {
      var sanitizedName := SanitizeCategoryName(categoryName);
      if sanitizedName != "" && !Truthy(m.elementCategories, sanitizedName) {
        var newCategories := m.elementCategories;
        newCategories := Assign(newCategories, sanitizedName, []);
        r := UpdateField(m, ElementCategories, CategoriesValue(newCategories));
      }
    }
  }
}
