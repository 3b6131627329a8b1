/**
 * Model resolution and field introspection helpers (djangoerp/core/utils/models.py):
 * `get_model`, `get_fields` and `get_field_type`.
 *
 * Python objects are represented by the shapes these helpers distinguish;
 * the application registry (`apps.get_model`) is a map from
 * (app label, model name) to a model class.
 */
module ModelUtils {
  import opened Wrappers
  import opened Strings

  /** A model field: its name, the name of its Python class and its `choices`. */
  datatype Field = Field(name: string, className: string, choices: seq<(string, string)>)

  /**
   * Class-level metadata of a model: `__name__`, `_meta.app_label`, the verbose
   * names, `_meta.fields` and `_meta.many_to_many`. A proxy model records the
   * concrete model it stands for; it still carries its own names.
   */
  datatype ModelClass = ModelClass(
    name: string,
    appLabel: string,
    verboseName: string,
    verboseNamePlural: string,
    concreteFields: seq<Field>,
    manyToMany: seq<Field>,
    proxyFor: Option<ModelClass>)

  /**
   * `_meta.concrete_model`: a proxy model stands for the concrete model at
   * the end of its chain of proxies; a concrete model is its own.
   */
  function ConcreteModel(cls: ModelClass): (r: ModelClass)
    ensures r.proxyFor.None?
    ensures cls.proxyFor.None? ==> r == cls
    ensures cls.proxyFor.Some? ==> r == ConcreteModel(cls.proxyFor.value)
    decreases cls
  {
    match cls.proxyFor
    case None => cls
    case Some(target) => ConcreteModel(target)
  }

  /** The inputs `get_model` tells apart. */
  datatype PyObject =
    | ModelType(cls: ModelClass)       // a model class
    | ModelInstance(cls: ModelClass)   // an instance of a model class
    | QuerySet(model: ModelClass)      // a queryset over a model
    | Text(s: string)                  // a "app_label.ModelName" string
    | OtherObject                      // None, a plain class, a plain instance, ...

  /** The exceptions `get_model` lets escape. */
  datatype Error = ValueError | LookupError

  /** The application registry, keyed by (app label, model name). */
  type Registry = map<(string, string), ModelClass>

  /** `apps.get_model(app_label, model_name)`: a missing entry raises `LookupError`. */
  function Lookup(registry: Registry, appLabel: string, modelName: string): Result<ModelClass, Error> {
    if (appLabel, modelName) in registry then Success(registry[(appLabel, modelName)])
    else Failure(LookupError)
  }

  /**
   * `get_model(klass)`: a model class is returned as it is, an instance gives
   * its class, a queryset its model, a string is split at its last '.' and
   * looked up; anything else raises `ValueError`.
   */
  function GetModel(klass: PyObject, registry: Registry): (r: Result<ModelClass, Error>)
    ensures r == Failure(ValueError) <==> klass.OtherObject?
    ensures klass.ModelType? ==> r == Success(klass.cls)
    ensures klass.ModelInstance? ==> r == Success(klass.cls)
    ensures klass.QuerySet? ==> r == Success(klass.model)
  {
    match klass
    case ModelType(cls) => Success(cls)
    case ModelInstance(cls) => Success(cls)
    case QuerySet(model) => Success(model)
    case Text(s) =>
      var (appLabel, _, modelName) := RPartition(s, '.');
      Lookup(registry, appLabel, modelName)
    case OtherObject => Failure(ValueError)
  }

  /**
   * What `get_model` returns is a model class that `get_model` hands back
   * unchanged, and an instance or a queryset of it resolves to it as well.
   */
  lemma GetModelStable(klass: PyObject, registry: Registry)
    requires GetModel(klass, registry).Success?
    ensures var m := GetModel(klass, registry).value;
      && GetModel(ModelType(m), registry) == Success(m)
      && GetModel(ModelInstance(m), registry) == Success(m)
      && GetModel(QuerySet(m), registry) == Success(m)
  {
  }

  /** A dotted string resolves through the registry under its two parts. */
  lemma GetModelDotted(appLabel: string, modelName: string, registry: Registry)
    requires '.' !in modelName
    ensures GetModel(Text(appLabel + "." + modelName), registry) == Lookup(registry, appLabel, modelName)
  {
    RPartitionOfJoined(appLabel, '.', modelName);
  }

  /** A string without a dot is looked up with an empty app label. */
  lemma GetModelUndotted(modelName: string, registry: Registry)
    requires '.' !in modelName
    ensures GetModel(Text(modelName), registry) == Lookup(registry, "", modelName)
  {
    RPartitionSplits(modelName, '.');
  }

  /**
   * `get_field_type(f)`: the lower-cased class name with every "field" removed,
   * followed by "_choices" when the field has choices.
   */
  function GetFieldType(f: Field): string {
    Replace(Lower(f.className), "field", "") + (if |f.choices| > 0 then "_choices" else "")
  }

  /** The choices suffix is present exactly when the field has choices. */
  lemma FieldTypeChoices(f: Field)
    ensures |f.choices| > 0 ==> GetFieldType(f) == GetFieldType(f.(choices := [])) + "_choices"
    ensures |f.choices| == 0 ==> |GetFieldType(f)| == |Lower(f.className)| - 5 * Count(Lower(f.className), "field")
  {
    ReplaceRemovesCount(Lower(f.className), "field");
  }

  /** `"Field".lower()` is `"field"`, and removing `"field"` from it leaves nothing. */
  lemma FieldSuffixRemoved()
    ensures Lower("Field") == "field"
    ensures Replace("field", "field", "") == ""
  {
    assert forall i :: 0 <= i < 5 ==> Lower("Field")[i] == LowerChar("Field"[i]);
    ReplaceLeading("field", "", "");
    assert "field" + "" == "field";
  }

  /** The stem of a `<Kind>Field` class name is its lower-cased kind. */
  lemma FieldTypeStem(kind: string)
    requires !Occurs(Lower(kind), "field")
    ensures Replace(Lower(kind + "Field"), "field", "") == Lower(kind)
  {
    var lk := Lower(kind);
    LowerAppend(kind, "Field");
    FieldSuffixRemoved();
    var p := "field";
    assert forall j :: 0 < j < |p| ==> p[j] != p[0];
    ReplaceBeforeFreshStart(lk, p, p, "");
    assert lk + "" == lk;
  }

  /**
   * For the usual `<Kind>Field` class name (`TextField`, `FloatField`,
   * `FilePathField`) the type is the lower-cased kind: `TextField` gives
   * "text", and "text_choices" once the field has choices. The only kinds
   * excluded are those that themselves contain "field" once lower-cased.
   */
  lemma FieldTypeOfFieldClass(kind: string, name: string, choices: seq<(string, string)>)
    requires !Occurs(Lower(kind), "field")
    ensures GetFieldType(Field(name, kind + "Field", choices))
         == Lower(kind) + (if |choices| > 0 then "_choices" else "")
  {
    FieldTypeStem(kind);
  }

  /** A field of either kind, as a dictionary of fields holds it. */
  datatype AnyField = ModelField(field: Field) | FormField(formFieldClass: string)

  /** An `OrderedDict` of fields, as its (key, value) items in order. */
  type FieldDict = seq<(string, AnyField)>

  /** The position of `key` among the items, if present. */
  function KeyIndex(d: FieldDict, key: string): (r: Option<nat>)
    ensures r.None? <==> forall i :: 0 <= i < |d| ==> d[i].0 != key
    ensures r.Some? ==> r.value < |d| && d[r.value].0 == key
  {
    if d == [] then None
    else if d[0].0 == key then Some(0)
    else match KeyIndex(d[1..], key)
      case None => None
      case Some(i) => Some(i + 1)
  }

  /** `d[key] = value` on an `OrderedDict`: an existing key keeps its place. */
  function Put(d: FieldDict, key: string, value: AnyField): FieldDict {
    match KeyIndex(d, key)
    case Some(i) => d[i := (key, value)]
    case None => d + [(key, value)]
  }

  /** `OrderedDict(pairs)`: the pairs inserted one after another. */
  function FromPairs(pairs: FieldDict): FieldDict
    decreases |pairs|
  {
    if pairs == [] then [] else Put(FromPairs(pairs[..|pairs| - 1]), pairs[|pairs| - 1].0, pairs[|pairs| - 1].1)
  }

  predicate DistinctKeys(pairs: FieldDict) {
    forall i, j :: 0 <= i < j < |pairs| ==> pairs[i].0 != pairs[j].0
  }

  /** With distinct keys, building the `OrderedDict` keeps every pair, in order. */
  lemma {:induction false} FromDistinctPairs(pairs: FieldDict)
    requires DistinctKeys(pairs)
    ensures FromPairs(pairs) == pairs
    decreases |pairs|
  {
    if pairs != [] {
      var init := pairs[..|pairs| - 1];
      assert DistinctKeys(init);
      FromDistinctPairs(init);
      var last := pairs[|pairs| - 1];
      assert forall i :: 0 <= i < |init| ==> init[i].0 != last.0;
      assert KeyIndex(init, last.0).None?;
      assert init + [last] == pairs;
    }
  }

  /** The `(f.name, f)` items of a list of fields. */
  function NamedFields(fs: seq<Field>): (r: FieldDict)
    ensures |r| == |fs|
    ensures forall i :: 0 <= i < |fs| ==> r[i] == (fs[i].name, ModelField(fs[i]))
  {
    if fs == [] then [] else [(fs[0].name, ModelField(fs[0]))] + NamedFields(fs[1..])
  }

  /** The inputs `get_fields` tells apart. */
  datatype FieldSource =
    | ModelObject(cls: ModelClass)     // a model instance
    | FormObject(fields: FieldDict)    // a form instance and its `fields`
    | OtherSource                      // anything else

  /** What `get_fields` returns: a dictionary, or the `OrderedDict` class itself. */
  datatype FieldsResult = Dict(items: FieldDict) | OrderedDictClass

  /**
   * `get_fields(form_or_model)` as written: for anything that is neither a
   * model instance nor a form, the initial `field_list = OrderedDict` is
   * returned, which is the class and not an empty dictionary.
   */
  function GetFields(src: FieldSource): FieldsResult {
    match src
    case ModelObject(cls) => Dict(FromPairs(NamedFields(cls.concreteFields + cls.manyToMany)))
    case FormObject(fields) => Dict(fields)
    case OtherSource => OrderedDictClass
  }

  /**
   * On a model whose field names are distinct, `get_fields` lists the concrete
   * fields then the many-to-many fields, keyed by name: its size is the sum.
   */
  lemma GetFieldsOfModel(cls: ModelClass)
    requires DistinctKeys(NamedFields(cls.concreteFields + cls.manyToMany))
    ensures GetFields(ModelObject(cls)).Dict?
    ensures var items := GetFields(ModelObject(cls)).items;
      && |items| == |cls.concreteFields| + |cls.manyToMany|
      && (forall i :: 0 <= i < |cls.concreteFields| ==>
            items[i] == (cls.concreteFields[i].name, ModelField(cls.concreteFields[i])))
      && (forall j :: 0 <= j < |cls.manyToMany| ==>
            items[|cls.concreteFields| + j] == (cls.manyToMany[j].name, ModelField(cls.manyToMany[j])))
  {
    var all := cls.concreteFields + cls.manyToMany;
    var named := NamedFields(all);
    FromDistinctPairs(named);
    assert GetFields(ModelObject(cls)) == Dict(named);
    forall j | 0 <= j < |cls.manyToMany|
      ensures all[|cls.concreteFields| + j] == cls.manyToMany[j]
    {
    }
  }

  /** A form's own `fields` dictionary is returned as it is. */
  lemma GetFieldsOfForm(fields: FieldDict)
    ensures GetFields(FormObject(fields)) == Dict(fields)
  {
  }

  /**
   * The discrepancy: for an input that is neither a model nor a form the
   * documented result is an empty dictionary, but the code returns the class.
   */
  lemma GetFieldsOtherIsClass()
    ensures GetFields(OtherSource) == OrderedDictClass
    ensures GetFields(OtherSource) != Dict([])
  {
  }

  /**
   * `get_fields` as its documentation describes it: always a dictionary,
   * empty for anything that is neither a model nor a form.
   */
  function GetFieldsDocumented(src: FieldSource): (r: FieldsResult)
    ensures r.Dict?
    ensures src.OtherSource? ==> r == Dict([])
    ensures !src.OtherSource? ==> r == GetFields(src)
  {
    if src.OtherSource? then Dict([]) else GetFields(src)
  }
}
