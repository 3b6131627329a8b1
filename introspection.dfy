/**
 * Template filters that introspect models (djangoerp/core/templatetags/introspection.py):
 * `typeof`, `model_name`, `model_name_plural`, `raw_model_name` and
 * `raw_model_name_plural`. Every name filter swallows the failure of
 * `get_model` and answers "" instead.
 */
module Introspection {
  import opened Wrappers
  import opened Strings
  import opened ModelUtils

  /**
   * `typeof(value)`: the text form of `type(value)` (given here as `typeRepr`)
   * with every "<class '", "<type '" and "'>" removed.
   */
  function Typeof(typeRepr: string): string {
    Replace(Replace(Replace(typeRepr, "<class '", ""), "<type '", ""), "'>", "")
  }

  /** A name with no '<' and no quote survives the three removals untouched. */
  lemma TypeofKeepsName(name: string)
    requires '<' !in name && '\'' !in name
    ensures Replace(Replace(Replace(name + "'>", "<class '", ""), "<type '", ""), "'>", "") == name
  {
    ReplaceSkips(name + "'>", [], "<class '", "");
    assert name + "'>" + [] == name + "'>";
    ReplaceSkips(name + "'>", [], "<type '", "");
    ReplaceSkips(name, "'>", "'>", "");
    ReplaceLeading("'>", "", "");
    assert "'>" + "" == "'>";
    assert name + "" == name;
  }

  /** The Python 2 wrapper "<type '" cannot start the Python 3 wrapper "<class '". */
  lemma TypeWrapperHasNoClassWrapper(name: string)
    requires '<' !in name
    ensures Replace("<type '" + name + "'>", "<class '", "") == "<type '" + name + "'>"
  {
    var typed := "<type '" + name + "'>";
    assert typed[..8][1] == 't' != "<class '"[1];
    assert typed[1..] == "type '" + name + "'>" + [];
    ReplaceSkips("type '" + name + "'>", [], "<class '", "");
  }

  /** The Python 3 form "<class 'x.Y'>" of a type's text comes out as the bare dotted name. */
  lemma TypeofClassForm(name: string)
    requires '<' !in name && '\'' !in name
    ensures Typeof("<class '" + name + "'>") == name
  {
    var inner := name + "'>";
    var c := "<class '" + name + "'>";
    assert c == "<class '" + inner;
    ReplaceLeading("<class '", inner, "");
    assert Replace(c, "<class '", "") == Replace(inner, "<class '", "") by {
      assert "" + Replace(inner, "<class '", "") == Replace(inner, "<class '", "");
    }
    TypeofKeepsName(name);
  }

  /** The Python 2 form "<type 'int'>" of a type's text comes out as the bare name. */
  lemma TypeofTypeForm(name: string)
    requires '<' !in name && '\'' !in name
    ensures Typeof("<type '" + name + "'>") == name
  {
    var inner := name + "'>";
    var t := "<type '" + name + "'>";
    assert t == "<type '" + inner;
    TypeWrapperHasNoClassWrapper(name);
    ReplaceLeading("<type '", inner, "");
    assert Replace(t, "<type '", "") == Replace(inner, "<type '", "") by {
      assert "" + Replace(inner, "<type '", "") == Replace(inner, "<type '", "");
    }
    assert Replace(inner, "<class '", "") == inner by {
      ReplaceSkips(inner, [], "<class '", "");
      assert inner + [] == inner;
    }
    TypeofKeepsName(name);
  }

  /** `model_name(obj)`: the verbose name of the resolved model, or "". */
  function ModelName(obj: PyObject, registry: Registry): string {
    match GetModel(obj, registry)
    case Success(mk) => mk.verboseName
    case Failure(_) => ""
  }

  /** `model_name_plural(obj)`: the plural verbose name of the resolved model, or "". */
  function ModelNamePlural(obj: PyObject, registry: Registry): string {
    match GetModel(obj, registry)
    case Success(mk) => mk.verboseNamePlural
    case Failure(_) => ""
  }

  /** `raw_model_name(obj)`: the lower-cased class name of the resolved model, or "". */
  function RawModelName(obj: PyObject, registry: Registry): string {
    match GetModel(obj, registry)
    case Success(mk) => Lower(mk.name)
    case Failure(_) => ""
  }

  /**
   * `raw_model_name_plural(obj)`: the raw name with an "s" appended when that
   * name is not empty, and "" otherwise.
   */
  function RawModelNamePlural(obj: PyObject, registry: Registry): (r: string)
    ensures r == "" <==> RawModelName(obj, registry) == ""
    ensures r != "" ==> r == RawModelName(obj, registry) + "s"
  {
    var name := RawModelName(obj, registry);
    if name != "" then name + "s" else ""
  }

  /** Whenever `get_model` raises, every name filter answers "". */
  lemma NamesEmptyOnFailure(obj: PyObject, registry: Registry)
    requires GetModel(obj, registry).Failure?
    ensures ModelName(obj, registry) == ""
    ensures ModelNamePlural(obj, registry) == ""
    ensures RawModelName(obj, registry) == ""
    ensures RawModelNamePlural(obj, registry) == ""
  {
  }

  /**
   * A model class and any of its instances report the same names, taken from
   * the class itself: a proxy model reports its own verbose names, not the
   * names of the concrete model it stands for.
   */
  lemma NamesOfClassAndInstance(cls: ModelClass, registry: Registry)
    ensures ModelName(ModelType(cls), registry) == ModelName(ModelInstance(cls), registry) == cls.verboseName
    ensures ModelNamePlural(ModelType(cls), registry) == ModelNamePlural(ModelInstance(cls), registry) == cls.verboseNamePlural
    ensures RawModelName(ModelType(cls), registry) == RawModelName(ModelInstance(cls), registry) == Lower(cls.name)
    ensures cls.proxyFor.Some? && cls.verboseName != cls.proxyFor.value.verboseName ==>
              ModelName(ModelType(cls), registry) != ModelName(ModelType(cls.proxyFor.value), registry)
  {
  }

  /** A dotted "app_label.ModelName" string gives the raw name of the registered class. */
  lemma RawModelNameOfDottedString(appLabel: string, modelName: string, registry: Registry)
    requires '.' !in modelName
    requires (appLabel, modelName) in registry
    ensures RawModelName(Text(appLabel + "." + modelName), registry) == Lower(registry[(appLabel, modelName)].name)
    ensures registry[(appLabel, modelName)].name != "" ==>
              RawModelNamePlural(Text(appLabel + "." + modelName), registry)
              == Lower(registry[(appLabel, modelName)].name) + "s"
  {
    GetModelDotted(appLabel, modelName, registry);
  }
}
