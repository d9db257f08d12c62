/**
 * The `Response` entity of src/entity/response.js: one captured network response,
 * with nineteen null fields, `timing` and `extras` empty objects and `cookies` an
 * empty array; the constructor overwrites the declared fields its initializer names
 * and ignores every other key.
 */
module ResponseEntity {
  import opened Js

  /** The fields whose initial value is null, as in the class body. */
  const NullFields: set<string> :=
    {"jobId", "companyId", "at", "url", "urlHash", "headers", "remoteAddress", "fromCache",
     "status", "statusText", "ok", "content", "isDetached", "frameId", "isNavigationRequest",
     "method", "postData", "resourceType", "requestId"}

  /** Every declared field. */
  const Fields: set<string> := NullFields + {"timing", "cookies", "extras"}

  /** The field initialisers. */
  function Defaults(): (d: map<string, Value>)
    ensures d.Keys == Fields
    ensures forall f :: f in NullFields ==> d[f] == Null
  {
    map f | f in Fields ::
      if f in NullFields then Null
      else if f == "cookies" then Arr([])
      else Obj(map[])
  }

  /** The declared fields the capture code sets by name. */
  lemma DeclaredNames()
    ensures "url" in Fields && "companyId" in Fields && "jobId" in Fields
    ensures "method" in Fields && "requestId" in Fields && "postData" in Fields
    ensures "timing" in Fields && "cookies" in Fields && "extras" in Fields
    ensures "companyId" in NullFields && "jobId" in NullFields
  {
  }

  /** `urlExtras`, which analyser.js passes to the constructor, is not a declared field. */
  lemma UrlExtrasUndeclared()
    ensures "urlExtras" !in Fields
  {
  }

  /** `timing` and `extras` start as empty objects and `cookies` as an empty array. */
  lemma DefaultsOfCollections()
    ensures Defaults()["timing"] == Obj(map[]) && Defaults()["extras"] == Obj(map[])
    ensures Defaults()["cookies"] == Arr([])
  {
    assert "timing" !in NullFields && "extras" !in NullFields && "cookies" !in NullFields;
  }

  /**
   * `new Response(initial)` as a value. An absent initializer defaults to `{}`; null
   * throws in `Object.keys`; a string's or an array's own keys are indices and a
   * number's or boolean's are none, so none of those names a field.
   */
  function ResponseOf(initial: Value): (r: Result<map<string, Value>, Exception>)
    ensures r.Failure? <==> initial.Null?
    ensures r.Success? ==> r.value.Keys == Fields
  {
    match initial
    case Null => Failure(TypeError)
    case Obj(m) => Success(CopyDeclared(Defaults(), m))
    case _ => Success(Defaults())
  }

  /**
   * What the constructor promises: the key set is exactly the declared fields (any
   * other key, such as `urlExtras`, is dropped); a declared key of the initializer is
   * copied unchanged; every other field keeps its default.
   */
  lemma ResponseOfObject(m: map<string, Value>)
    ensures var r := ResponseOf(Obj(m)).value;
      && (forall k :: k in m && k !in Fields ==> k !in r)
      && (forall f :: f in Fields && f in m ==> r[f] == m[f])
      && (forall f :: f in Fields && f !in m ==> r[f] == Defaults()[f])
  {
  }

  /** `new Response()` is exactly the defaults. */
  lemma ResponseOfNothing()
    ensures ResponseOf(Undefined) == Success(Defaults())
    ensures ResponseOf(Obj(map[])) == Success(Defaults())
  {
    assert CopyDeclared(Defaults(), map[]) == Defaults();
  }

  /** Rebuilding a response from its own fields gives the same response. */
  lemma ResponseOfIdempotent(initial: Value)
    requires !initial.Null?
    ensures ResponseOf(Obj(ResponseOf(initial).value)) == ResponseOf(initial)
  {
    var r := ResponseOf(initial).value;
    assert CopyDeclared(Defaults(), r) == r;
  }

  class Response {
    /** The object's own data properties. */
    var props: map<string, Value>

    /** `new Response(initial)` for an object initializer. */
    constructor (initial: map<string, Value>)
      ensures props == CopyDeclared(Defaults(), initial)
    {
      var copied := AssignDeclared(Defaults(), initial);
      props := copied;
    }

    /** `new Response(initial)`, with its default `{}` and its TypeError for null. */
    static method New(initial: Value) returns (r: Result<Response, Exception>)
      ensures r.Failure? <==> ResponseOf(initial).Failure?
      ensures r.Success? ==> fresh(r.value) && r.value.props == ResponseOf(initial).value
    {
      if initial.Null? {
        return Failure(TypeError);
      }
      var response := new Response(if initial.Obj? then initial.props else map[]);
      return Success(response);
    }
  }
}
