/**
 * The `Cookie` entity of src/entity/cookie.js: a record of eleven declared fields, all
 * null to begin with, filled either from a structured cookie (copying the keys that
 * are declared fields, as they are) or by parsing a `Set-Cookie` style string.
 *
 * The string parser is the code's own simplified reading, not RFC 6265: the string is
 * split on ';', each piece is trimmed and split on '=', and only the first two parts
 * are kept. A piece whose cleaned name is a declared field assigns that field;
 * any other piece overwrites `name` and `value` with its raw name and its value.
 */
module CookieEntity {
  import opened Js

  /** The declared data fields, as in the class body. */
  const Fields: set<string> :=
    {"name", "value", "samesite", "path", "maxage", "expires", "domain", "secure", "httponly", "size", "priority"}

  /** The field initialisers: every declared field is null. */
  function Defaults(): (d: map<string, Value>)
    ensures d.Keys == Fields
    ensures forall f :: f in d ==> d[f] == Null
  {
    map f | f in Fields :: Null
  }

  // ---------------------------------------------------------------------------
  // cleanFieldName

  /** `s.replace(/[|-]/g, "")`. */
  function DropBarsAndDashes(s: string): (r: string)
    ensures '|' !in r && '-' !in r
    ensures |r| <= |s|
  {
    if |s| == 0 then ""
    else if s[0] == '|' || s[0] == '-' then DropBarsAndDashes(s[1..])
    else [s[0]] + DropBarsAndDashes(s[1..])
  }

  /** `cleanFieldName(name)`: every '|' and '-' removed, then lower-cased. */
  function CleanFieldName(name: string): (r: string)
    ensures '|' !in r && '-' !in r
    ensures forall k :: 0 <= k < |r| ==> !('A' <= r[k] <= 'Z')
  {
    var dropped := DropBarsAndDashes(name);
    var r := ToLowerCase(dropped);
    assert forall k :: 0 <= k < |r| ==> r[k] == LowerChar(dropped[k]);
    assert '|' !in r && '-' !in r by {
      forall k | 0 <= k < |r| ensures r[k] != '|' && r[k] != '-' {
        assert dropped[k] in dropped;
      }
    }
    r
  }

  lemma {:induction false} DropBarsAndDashesKeeps(s: string)
    requires '|' !in s && '-' !in s
    ensures DropBarsAndDashes(s) == s
  {
    if |s| > 0 {
      assert s[1..] == s[1..];
      assert forall c :: c in s[1..] ==> c in s;
      DropBarsAndDashesKeeps(s[1..]);
    }
  }

  /** A cleaned name is its own cleaned name. */
  lemma CleanFieldNameIdempotent(name: string)
    ensures CleanFieldName(CleanFieldName(name)) == CleanFieldName(name)
  {
    var r := CleanFieldName(name);
    DropBarsAndDashesKeeps(r);
    assert ToLowerCase(r) == r;
  }

  /** Removing separators distributes over concatenation. */
  lemma {:induction false} DropBarsAndDashesConcat(a: string, b: string)
    ensures DropBarsAndDashes(a + b) == DropBarsAndDashes(a) + DropBarsAndDashes(b)
    decreases |a|
  {
    if |a| > 0 {
      assert (a + b)[0] == a[0];
      assert (a + b)[1..] == a[1..] + b;
      DropBarsAndDashesConcat(a[1..], b);
    } else {
      assert a + b == b;
    }
  }

  /** A dash between two clean words is dropped and the words are lower-cased. */
  lemma CleanFieldNameDropsDash(a: string, b: string)
    requires '|' !in a && '-' !in a && '|' !in b && '-' !in b
    ensures CleanFieldName(a + "-" + b) == ToLowerCase(a + b)
  {
    assert a + "-" + b == a + ("-" + b);
    DropBarsAndDashesConcat(a, "-" + b);
    DropBarsAndDashesConcat("-", b);
    DropBarsAndDashesKeeps(a);
    DropBarsAndDashesKeeps(b);
    assert DropBarsAndDashes("-") == "";
  }

  /** A name without '|' or '-' is only lower-cased. */
  lemma CleanWord(s: string)
    requires '|' !in s && '-' !in s
    ensures CleanFieldName(s) == ToLowerCase(s)
  {
    DropBarsAndDashesKeeps(s);
  }

  lemma LowerHttpOnly()
    ensures ToLowerCase("HttpOnly") == "httponly"
  {
  }

  lemma LowerSameSite()
    ensures ToLowerCase("SameSite") == "samesite"
  {
  }

  lemma LowerPath()
    ensures ToLowerCase("Path") == "path"
  {
  }

  /** `Max-Age` reaches the declared field `maxage`. */
  lemma CleanMaxAge()
    ensures CleanFieldName("Max-Age") == "maxage"
  {
    CleanFieldNameDropsDash("Max", "Age");
    assert "Max" + "-" + "Age" == "Max-Age";
    assert "Max" + "Age" == "MaxAge";
    assert ToLowerCase("MaxAge") == "maxage";
  }

  /** The flag `HttpOnly` reaches the declared field `httponly`. */
  lemma CleanHttpOnly()
    ensures CleanFieldName("HttpOnly") == "httponly"
  {
    CleanWord("HttpOnly");
    LowerHttpOnly();
  }

  /** `SameSite` reaches the declared field `samesite`. */
  lemma CleanSameSite()
    ensures CleanFieldName("SameSite") == "samesite"
  {
    CleanWord("SameSite");
    LowerSameSite();
  }

  /** `Path` reaches the declared field `path`. */
  lemma CleanPath()
    ensures CleanFieldName("Path") == "path"
  {
    CleanWord("Path");
    LowerPath();
  }

  // ---------------------------------------------------------------------------
  // The string path, as values

  /** What `const [name, value] = piece.trim().split('=')` binds. */
  datatype Piece = Piece(rawName: string, value: Value)

  function ReadPiece(piece: string): (p: Piece)
    ensures p.value.Undefined? || p.value.Str?
  {
    var parts := Split(Trim(piece), '=');
    Piece(parts[0], if |parts| > 1 then Str(parts[1]) else Undefined)
  }

  /** Every piece of a cookie string, read. */
  function ReadPieces(pieces: seq<string>): (ps: seq<Piece>)
    ensures |ps| == |pieces|
    ensures forall i :: 0 <= i < |pieces| ==> ps[i] == ReadPiece(pieces[i])
  {
    seq(|pieces|, i requires 0 <= i < |pieces| => ReadPiece(pieces[i]))
  }

  /** The effect of one piece on the cookie's properties (`fieldNameCleaned in this` tests the declared keys). */
  function Assign(props: map<string, Value>, p: Piece): (r: map<string, Value>)
    ensures "name" in props && "value" in props ==> r.Keys == props.Keys
  {
    var cleaned := CleanFieldName(p.rawName);
    if cleaned in props then props[cleaned := p.value]
    else props["name" := Str(p.rawName)]["value" := p.value]
  }

  /** The pieces applied in order, as the `forEach` does. */
  function AssignAll(props: map<string, Value>, ps: seq<Piece>): (r: map<string, Value>)
    ensures "name" in props && "value" in props ==> r.Keys == props.Keys
    decreases |ps|
  {
    if |ps| == 0 then props
    else Assign(AssignAll(props, ps[..|ps| - 1]), ps[|ps| - 1])
  }

  /** Applying one more piece extends the fold by one step. */
  lemma AssignAllNext(props: map<string, Value>, ps: seq<Piece>, i: nat)
    requires i < |ps|
    ensures AssignAll(props, ps[..i + 1]) == Assign(AssignAll(props, ps[..i]), ps[i])
  {
    assert ps[..i + 1][..i] == ps[..i];
  }

  /** `new Cookie(s)` for a string s. */
  function ParseCookieString(s: string): (r: map<string, Value>)
    ensures r.Keys == Fields
  {
    AssignAll(Defaults(), ReadPieces(Split(s, ';')))
  }

  /** Whether a piece assigns the declared field f. */
  predicate Writes(p: Piece, f: string)
    requires f in Fields
  {
    var cleaned := CleanFieldName(p.rawName);
    cleaned == f || (cleaned !in Fields && (f == "name" || f == "value"))
  }

  /** The value a piece gives f when it writes f. */
  function WrittenValue(p: Piece, f: string): Value {
    if f == "name" && CleanFieldName(p.rawName) !in Fields then Str(p.rawName) else p.value
  }

  /** The index of the last piece that writes f. */
  function LastWriter(ps: seq<Piece>, f: string): (r: Option<nat>)
    requires f in Fields
    ensures r.Some? ==> r.value < |ps| && Writes(ps[r.value], f)
    ensures r.Some? ==> forall j :: r.value < j < |ps| ==> !Writes(ps[j], f)
    ensures r.None? ==> forall j :: 0 <= j < |ps| ==> !Writes(ps[j], f)
    decreases |ps|
  {
    if |ps| == 0 then None
    else if Writes(ps[|ps| - 1], f) then Some(|ps| - 1)
    else
      var r := LastWriter(ps[..|ps| - 1], f);
      assert forall j :: 0 <= j < |ps| - 1 ==> ps[..|ps| - 1][j] == ps[j];
      r
  }

  /** One piece changes field f exactly when it writes f. */
  lemma AssignField(props: map<string, Value>, p: Piece, f: string)
    requires props.Keys == Fields && f in Fields
    ensures Assign(props, p)[f] == if Writes(p, f) then WrittenValue(p, f) else props[f]
  {
  }

  /**
   * Last writer wins: each declared field ends with the value of the last piece that
   * writes it, and keeps its initial value when no piece does.
   */
  lemma {:induction false} AssignAllLastWriterWins(props: map<string, Value>, ps: seq<Piece>, f: string)
    requires props.Keys == Fields && f in Fields
    ensures AssignAll(props, ps)[f] ==
      match LastWriter(ps, f)
      case None => props[f]
      case Some(k) => WrittenValue(ps[k], f)
    decreases |ps|
  {
    if |ps| > 0 {
      var init := ps[..|ps| - 1];
      var last := ps[|ps| - 1];
      AssignAllLastWriterWins(props, init, f);
      var before := AssignAll(props, init);
      assert AssignAll(props, ps) == Assign(before, last);
      AssignField(before, last, f);
      if !Writes(last, f) {
        assert LastWriter(ps, f) == LastWriter(init, f);
      }
    }
  }

  /** Every field the parser sets holds a string or undefined; a field no piece writes stays null. */
  lemma ParseCookieStringValues(s: string, f: string)
    requires f in Fields
    ensures var r := ParseCookieString(s);
      && (r[f].Null? || r[f].Undefined? || r[f].Str?)
      && (LastWriter(ReadPieces(Split(s, ';')), f).None? ==> r[f] == Null)
  {
    AssignAllLastWriterWins(Defaults(), ReadPieces(Split(s, ';')), f);
  }

  // ---------------------------------------------------------------------------
  // Facts about single pieces

  /** A piece `name=value` binds both. */
  lemma ReadPieceNameValue(piece: string, n: string, v: string)
    requires Trim(piece) == n + "=" + v
    requires '=' !in n && '=' !in v
    ensures ReadPiece(piece) == Piece(n, Str(v))
  {
    SplitAtFirst(n, v, '=');
    SplitWithoutSeparator(v, '=');
  }

  /** Only the first two '='-separated parts count: `a=b=c` binds name a and value b. */
  lemma ReadPieceFirstTwoParts(piece: string, n: string, v: string, w: string)
    requires Trim(piece) == n + "=" + v + "=" + w
    requires '=' !in n && '=' !in v
    ensures ReadPiece(piece) == Piece(n, Str(v))
  {
    assert n + "=" + v + "=" + w == n + ['='] + (v + ['='] + w);
    SplitAtFirst(n, v + ['='] + w, '=');
    SplitAtFirst(v, w, '=');
  }

  /** A piece without '=' (a flag such as `HttpOnly`) binds its trimmed text as name and undefined as value. */
  lemma ReadPieceFlag(piece: string)
    requires '=' !in Trim(piece)
    ensures ReadPiece(piece) == Piece(Trim(piece), Undefined)
  {
    SplitWithoutSeparator(Trim(piece), '=');
  }

  /** A flag attribute sets its field to undefined, not to the flag's text, and not null. */
  lemma FlagAttributeIsUndefined(props: map<string, Value>, piece: string)
    requires props.Keys == Fields
    requires '=' !in Trim(piece) && CleanFieldName(Trim(piece)) in Fields
    ensures Assign(props, ReadPiece(piece))[CleanFieldName(Trim(piece))] == Undefined
  {
    ReadPieceFlag(piece);
  }

  /** An empty piece (as after a trailing ';') sets name to "" and value to undefined. */
  lemma EmptyPiece(props: map<string, Value>)
    requires props.Keys == Fields
    ensures Assign(props, ReadPiece(""))["name"] == Str("")
    ensures Assign(props, ReadPiece(""))["value"] == Undefined
  {
    ReadPieceFlag("");
    assert CleanFieldName("") == "";
  }

  /** A trailing ';' leaves name "" and value undefined, whatever came before. */
  lemma TrailingSemicolon(s: string)
    ensures ParseCookieString(s + ";")["name"] == Str("")
    ensures ParseCookieString(s + ";")["value"] == Undefined
  {
    var pieces := Split(s + ";", ';');
    var ps := ReadPieces(pieces);
    LastPieceAfterSeparator(s, ';');
    EmptyPiece(AssignAll(Defaults(), ps[..|ps| - 1]));
  }

  /** Splitting `s + sep` ends with an empty piece. */
  lemma {:induction false} LastPieceAfterSeparator(s: string, sep: char)
    ensures var pieces := Split(s + [sep], sep); |pieces| >= 2 && pieces[|pieces| - 1] == ""
    decreases |s|
  {
    var t := s + [sep];
    var i := IndexOf(t, sep);
    assert t[|s|] == sep;
    if i == |s| {
      assert t[i + 1..] == "";
    } else {
      assert t[i + 1..] == s[i + 1..] + [sep];
      LastPieceAfterSeparator(s[i + 1..], sep);
    }
  }

  /** A string with no white space at either end is its own trim. */
  lemma TrimUnchanged(s: string)
    requires |s| > 0 && !IsWhiteSpace(s[0]) && !IsWhiteSpace(s[|s| - 1])
    ensures Trim(s) == s
  {
  }

  /** One leading blank is trimmed away. */
  lemma TrimLeadingBlank(t: string)
    requires |t| > 0 && !IsWhiteSpace(t[0]) && !IsWhiteSpace(t[|t| - 1])
    ensures Trim(" " + t) == t
  {
    assert (" " + t)[0] == ' ';
    assert (" " + t)[1..] == t;
    assert TrimStart(" " + t) == TrimStart(t) == t;
  }

  /** The pieces of `sid=abc123; Path=/; HttpOnly`. */
  lemma ExampleSplit()
    ensures Split("sid=abc123; Path=/; HttpOnly", ';') == ["sid=abc123", " Path=/", " HttpOnly"]
  {
    ExampleJoin();
    SplitThree("sid=abc123", " Path=/", " HttpOnly", ';');
  }

  lemma ExampleJoin()
    ensures "sid=abc123" + [';'] + " Path=/" + [';'] + " HttpOnly" == "sid=abc123; Path=/; HttpOnly"
  {
  }

  lemma ExampleTrimSid()
    ensures Trim("sid=abc123") == "sid=abc123"
  {
    TrimUnchanged("sid=abc123");
  }

  lemma ExampleTrimPath()
    ensures Trim(" Path=/") == "Path=/"
  {
    TrimLeadingBlank("Path=/");
  }

  lemma ExampleTrimFlag()
    ensures Trim(" HttpOnly") == "HttpOnly"
  {
    TrimLeadingBlank("HttpOnly");
  }

  lemma ExampleSplitSid()
    ensures Split("sid=abc123", '=') == ["sid", "abc123"]
  {
    SplitTwo("sid", "abc123", '=');
    assert "sid" + ['='] + "abc123" == "sid=abc123";
  }

  lemma ExampleSplitPath()
    ensures Split("Path=/", '=') == ["Path", "/"]
  {
    SplitTwo("Path", "/", '=');
    assert "Path" + ['='] + "/" == "Path=/";
  }

  lemma ExampleSplitFlag()
    ensures Split("HttpOnly", '=') == ["HttpOnly"]
  {
    SplitWithoutSeparator("HttpOnly", '=');
  }

  lemma CleanSid()
    ensures CleanFieldName("sid") == "sid"
  {
    CleanWord("sid");
    assert ToLowerCase("sid") == "sid";
  }

  /** What each piece of the example binds. */
  lemma ExamplePieces()
    ensures ReadPiece("sid=abc123") == Piece("sid", Str("abc123"))
    ensures ReadPiece(" Path=/") == Piece("Path", Str("/"))
    ensures ReadPiece(" HttpOnly") == Piece("HttpOnly", Undefined)
  {
    ExampleTrimSid();
    ExampleTrimPath();
    ExampleTrimFlag();
    ExampleSplitSid();
    ExampleSplitPath();
    ExampleSplitFlag();
  }

  /** The example's pieces, read one by one. */
  lemma ExampleRead()
    ensures var ps := ReadPieces(Split("sid=abc123; Path=/; HttpOnly", ';'));
      && |ps| == 3 && ps[0] == Piece("sid", Str("abc123"))
      && ps[1] == Piece("Path", Str("/")) && ps[2] == Piece("HttpOnly", Undefined)
  {
    var pieces := Split("sid=abc123; Path=/; HttpOnly", ';');
    ExampleSplit();
    assert pieces[0] == "sid=abc123" && pieces[1] == " Path=/" && pieces[2] == " HttpOnly";
    ExamplePieces();
    ReadPiecesOfThree(pieces, Piece("sid", Str("abc123")), Piece("Path", Str("/")), Piece("HttpOnly", Undefined));
  }

  lemma ReadPiecesOfThree(pieces: seq<string>, a: Piece, b: Piece, c: Piece)
    requires |pieces| == 3
    requires ReadPiece(pieces[0]) == a && ReadPiece(pieces[1]) == b && ReadPiece(pieces[2]) == c
    ensures var ps := ReadPieces(pieces); |ps| == 3 && ps[0] == a && ps[1] == b && ps[2] == c
  {
  }

  /** Three pieces are applied left to right. */
  lemma AssignThree(props: map<string, Value>, ps: seq<Piece>)
    requires |ps| == 3
    ensures AssignAll(props, ps) == Assign(Assign(Assign(props, ps[0]), ps[1]), ps[2])
  {
    var two, one := ps[..2], ps[..1];
    assert two[..1] == one && one[..0] == [];
    assert AssignAll(props, one) == Assign(props, ps[0]);
    assert AssignAll(props, two) == Assign(AssignAll(props, one), ps[1]);
  }

  /** Applying the example's three pieces to the defaults. */
  lemma ExampleAssign(ps: seq<Piece>)
    requires |ps| == 3 && ps[0] == Piece("sid", Str("abc123"))
    requires ps[1] == Piece("Path", Str("/")) && ps[2] == Piece("HttpOnly", Undefined)
    ensures var r := AssignAll(Defaults(), ps);
      && r["name"] == Str("sid") && r["value"] == Str("abc123")
      && r["path"] == Str("/") && r["httponly"] == Undefined
      && r["secure"] == Null && r["domain"] == Null
  {
    AssignThree(Defaults(), ps);
    var r0 := Assign(Defaults(), ps[0]);
    AssignUndeclared(Defaults(), ps[0]);
    var r1 := Assign(r0, ps[1]);
    AssignDeclaredPiece(r0, ps[1], "path");
    AssignDeclaredPiece(r1, ps[2], "httponly");
  }

  /** An undeclared name such as `sid` lands in `name` and `value`. */
  lemma AssignUndeclared(props: map<string, Value>, p: Piece)
    requires props.Keys == Fields && p.rawName == "sid"
    ensures Assign(props, p) == props["name" := Str("sid")]["value" := p.value]
  {
    CleanSid();
    assert "sid" !in Fields;
  }

  /** A declared name sets its own field. */
  lemma AssignDeclaredPiece(props: map<string, Value>, p: Piece, f: string)
    requires props.Keys == Fields
    requires (p.rawName == "Path" && f == "path") || (p.rawName == "HttpOnly" && f == "httponly")
    ensures Assign(props, p) == props[f := p.value]
  {
    if f == "path" { CleanPath(); } else { CleanHttpOnly(); }
  }

  /** The example `sid=abc123; Path=/; HttpOnly`: httponly ends up undefined, not "HttpOnly". */
  lemma ParseCookieExample()
    ensures var r := ParseCookieString("sid=abc123; Path=/; HttpOnly");
      && r["name"] == Str("sid") && r["value"] == Str("abc123")
      && r["path"] == Str("/") && r["httponly"] == Undefined
      && r["secure"] == Null && r["domain"] == Null
  {
    ExampleRead();
    ExampleAssign(ReadPieces(Split("sid=abc123; Path=/; HttpOnly", ';')));
  }

  lemma MaxAgeTrim()
    ensures Trim("Max-Age=10") == "Max-Age=10"
  {
    TrimUnchanged("Max-Age=10");
  }

  lemma MaxAgePiece()
    ensures ReadPiece("Max-Age=10") == Piece("Max-Age", Str("10"))
  {
    MaxAgeTrim();
    SplitTwo("Max-Age", "10", '=');
    assert "Max-Age" + ['='] + "10" == "Max-Age=10";
  }

  /** `Max-Age=10` sets maxage to "10". */
  lemma MaxAgeExample(props: map<string, Value>)
    requires props.Keys == Fields
    ensures Assign(props, ReadPiece("Max-Age=10"))["maxage"] == Str("10")
  {
    MaxAgePiece();
    CleanMaxAge();
  }

  // ---------------------------------------------------------------------------
  // The object path, as values

  /** `new Cookie(initial)` as a value: objects copy their declared keys; null throws. */
  function CookieOf(initial: Value): (r: Result<map<string, Value>, Exception>)
    ensures r.Failure? <==> initial.Null?
    ensures r.Success? ==> r.value.Keys == Fields
  {
    if TypeOf(initial) == "object" then
      if initial.Null? then Failure(TypeError)            // Object.keys(null) throws
      else if initial.Obj? then Success(CopyDeclared(Defaults(), initial.props))
      else Success(Defaults())                          // an array's keys are indices, never fields
    else if initial.Str? then Success(ParseCookieString(initial.s))
    else Success(Defaults())
  }

  /**
   * The object path matches keys exactly, with no cleaning: a structured cookie's
   * `httpOnly` and `sameSite` are dropped, declared keys are copied unchanged, and
   * rebuilding a cookie from its own fields gives the same cookie.
   */
  lemma CookieOfObject(m: map<string, Value>)
    ensures var c := CookieOf(Obj(m)).value;
      && (forall f :: f in Fields && f in m ==> c[f] == m[f])
      && (forall f :: f in Fields && f !in m ==> c[f] == Null)
      && ("httponly" !in m ==> c["httponly"] == Null)
      && ("samesite" !in m ==> c["samesite"] == Null)
      && CookieOf(Obj(c)) == Success(c)
  {
    var c := CookieOf(Obj(m)).value;
    assert CopyDeclared(Defaults(), c) == c;
  }

  /** Neither an object nor a string: every field stays null. */
  lemma CookieOfOther(initial: Value)
    requires !initial.Obj? && !initial.Str? && !initial.Null?
    ensures CookieOf(initial) == Success(Defaults())
  {
  }

  // ---------------------------------------------------------------------------
  // The class

  class Cookie {
    /** The object's own data properties. */
    var props: map<string, Value>

    ghost predicate Valid()
      reads this
    {
      props.Keys == Fields
    }

    /** The field initialisers alone (an initial value that is neither object nor string). */
    constructor Empty()
      ensures Valid() && props == Defaults()
    {
      props := Defaults();
    }

    /** `new Cookie(initial)` for an object `initial`. */
    constructor FromObject(initial: map<string, Value>)
      ensures Valid() && props == CopyDeclared(Defaults(), initial)
    {
      var copied := AssignDeclared(Defaults(), initial);
      props := copied;
    }

    /** `new Cookie(s)` for a string `s`. */
    constructor FromString(s: string)
      ensures Valid() && props == ParseCookieString(s)
    {
      props := Defaults();
      new;
      ConvertStringCookieToObject(s);
    }

    /** `convertStringCookieToObject(s)`: split on ';', then assign piece by piece. */
    method ConvertStringCookieToObject(s: string)
      requires Valid()
      modifies this
      ensures Valid() && props == AssignAll(old(props), ReadPieces(Split(s, ';')))
    {
      var cookieFields := Split(s, ';');
      AssignPieces(cookieFields);
    }

    /** The `forEach` over the pieces of a cookie string. */
    method AssignPieces(cookieFields: seq<string>)
      requires Valid()
      modifies this
      ensures Valid() && props == AssignAll(old(props), ReadPieces(cookieFields))
    {
      ghost var read := ReadPieces(cookieFields);
      ghost var initial := props;
      var i := 0;
      while i < |cookieFields|
        invariant 0 <= i <= |cookieFields|
        invariant props == AssignAll(initial, read[..i])
        invariant props.Keys == Fields
      {
        var piece := ReadPiece(cookieFields[i]);
        ghost var before := props;
        var name, value := piece.rawName, piece.value;
        var fieldNameCleaned := CleanFieldName(name);
        if fieldNameCleaned in props {
          props := props[fieldNameCleaned := value];
        } else {
          props := props["name" := Str(name)];
          props := props["value" := value];
        }
        assert props == Assign(before, read[i]);
        AssignAllNext(initial, read, i);
        assert props == AssignAll(initial, read[..i + 1]);
        i := i + 1;
      }
      assert read[..i] == read;
    }

    /** `new Cookie(initial)`, which throws for null. */
    static method New(initial: Value) returns (r: Result<Cookie, Exception>)
      ensures r.Failure? <==> CookieOf(initial).Failure?
      ensures r.Success? ==> fresh(r.value) && r.value.Valid() && r.value.props == CookieOf(initial).value
    {
      if TypeOf(initial) == "object" {
        if initial.Null? {
          return Failure(TypeError);
        }
        var c := new Cookie.FromObject(if initial.Obj? then initial.props else map[]);
        return Success(c);
      } else if initial.Str? {
        var c := new Cookie.FromString(initial.s);
        return Success(c);
      }
      var c := new Cookie.Empty();
      return Success(c);
    }
  }
}
