/**
 * The dashboard's string helpers: the class-name joiner, the environment
 * label, and the client-side copy of the key pattern.
 */
module Utils {
  import opened JsArray
  import opened Text
  import opened Types

  // ---------------------------------------------------------------------------
  // cx

  /** One argument of `cx`: a class name, or one of the falsy values callers pass for "none". */
  datatype ClassPart = Class(name: string) | False | Null | Undefined

  /** `Boolean(part)`: only a non-empty class name is truthy. */
  predicate Truthy(p: ClassPart) {
    p.Class? && p.name != ""
  }

  function NameOf(p: ClassPart): string {
    if p.Class? then p.name else ""
  }

  function Names(parts: seq<ClassPart>): (r: seq<string>)
    ensures |r| == |parts|
    ensures forall i :: 0 <= i < |parts| ==> r[i] == NameOf(parts[i])
  {
    seq(|parts|, i requires 0 <= i < |parts| => NameOf(parts[i]))
  }

  /**
   * `parts.filter(Boolean).join(' ')`: the non-empty class names in order,
   * one space apart; empty exactly when no part is truthy.
   */
  function Cx(parts: seq<ClassPart>): (r: string)
    ensures r == "" <==> forall i :: 0 <= i < |parts| ==> !Truthy(parts[i])
  {
    var kept := Filter(parts, Truthy);
    JoinNonEmpty(Names(kept), " ");
    Join(Names(kept), " ")
  }

  lemma NamesAppend(a: seq<ClassPart>, b: seq<ClassPart>)
    ensures Names(a + b) == Names(a) + Names(b)
  {
  }

  /** Joining names that are all non-empty gives the empty string only for no names. */
  lemma {:induction false} JoinNonEmpty(names: seq<string>, sep: string)
    requires forall i :: 0 <= i < |names| ==> names[i] != ""
    ensures Join(names, sep) == "" <==> names == []
  {
    if |names| > 1 {
      assert |Join(names, sep)| >= |names[0]| > 0;
    }
  }

  /** The kept names are all non-empty, so the result is empty exactly when nothing is kept. */
  lemma KeptNames(parts: seq<ClassPart>)
    ensures forall i :: 0 <= i < |Names(Filter(parts, Truthy))| ==> Names(Filter(parts, Truthy))[i] != ""
    ensures Cx(parts) == "" <==> Filter(parts, Truthy) == []
  {
    JoinNonEmpty(Names(Filter(parts, Truthy)), " ");
  }

  /** `cx` over two argument lists: the two results joined by one space, an empty side dropping out. */
  lemma CxAppend(a: seq<ClassPart>, b: seq<ClassPart>)
    ensures Cx(a + b) ==
              if Cx(a) == "" then Cx(b)
              else if Cx(b) == "" then Cx(a)
              else Cx(a) + " " + Cx(b)
  {
    var fa, fb := Filter(a, Truthy), Filter(b, Truthy);
    FilterAppend(a, b, Truthy);
    NamesAppend(fa, fb);
    JoinAppend(Names(fa), Names(fb), " ");
    KeptNames(a);
    KeptNames(b);
  }

  // ---------------------------------------------------------------------------
  // formatEnv

  /**
   * `env[0]?.toUpperCase() + env.slice(1)`: the first character upper-cased;
   * on the empty string `env[0]` is undefined and the result is "undefined".
   */
  function FormatEnv(env: string): (r: string)
    ensures env == [] ==> r == "undefined"
    ensures env != [] ==> |r| == |env| && r[1..] == env[1..]
    ensures env != [] ==> r[0] == UpperChar(env[0]) && !('a' <= r[0] <= 'z')
  {
    if env == [] then "undefined" else [UpperChar(env[0])] + env[1..]
  }

  /** The label shown for each environment. */
  function Label(e: Environment): string {
    match e
    case Development => "Development"
    case Staging => "Staging"
    case Production => "Production"
  }

  lemma FormatEnvLabels(e: Environment)
    ensures FormatEnv(e.Name()) == Label(e)
  {
  }

  /** On a non-empty string, formatting twice is formatting once. */
  lemma FormatEnvIdempotent(env: string)
    requires env != []
    ensures FormatEnv(FormatEnv(env)) == FormatEnv(env)
  {
  }

  // ---------------------------------------------------------------------------
  // kebabCaseRegex

  /** The dashboard's key check, `/^[a-z0-9]+(-[a-z0-9]+)*$/`, the same pattern the schemas use. */
  predicate KebabCaseRegex(s: string) {
    MatchesKebabCase(s)
  }

  /** The dashboard accepts exactly the keys of kebab shape, as the server does. */
  lemma KebabCaseRegexShape(s: string)
    ensures KebabCaseRegex(s) <==> KebabShape(s)
  {
    KebabCaseIff(s);
  }
}
