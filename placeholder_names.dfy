/** Config-server placeholders: the `((name))` strings of a manifest, the names they
    carry, and how a name becomes the full name the config server is asked for. */
module PlaceholderNames {
  import opened Wrappers

  /** A full placeholder is a whole string of the form `((…))` whose inside has no
      parentheses; `((a))((b))` and `((a)) text` are plain strings. */
  predicate IsFullPlaceholder(s: string) {
    |s| >= 4 && s[..2] == "((" && s[|s| - 2..] == "))"
    && forall i :: 2 <= i < |s| - 2 ==> s[i] != '(' && s[i] != ')'
  }

  /** The name inside a full placeholder, without the leading `!` that marks it. */
  function NameOf(placeholder: string): string
    requires IsFullPlaceholder(placeholder)
  {
    var inner := placeholder[2..|placeholder| - 2];
    if |inner| > 0 && inner[0] == '!' then inner[1..] else inner
  }

  /** The placeholder is its name in double parentheses, with `!` in front of the name
      exactly when the placeholder has one there. */
  lemma NameOfShape(placeholder: string)
    requires IsFullPlaceholder(placeholder)
    ensures placeholder[2] == '!' ==> placeholder == "((!" + NameOf(placeholder) + "))"
    ensures placeholder[2] != '!' ==> placeholder == "((" + NameOf(placeholder) + "))"
  {
    var inner := placeholder[2..|placeholder| - 2];
    assert placeholder == "((" + inner + "))";
    if |inner| > 0 && inner[0] == '!' {
      assert inner == "!" + inner[1..];
    }
  }

  /** The characters a variable name may use. */
  predicate NameChar(c: char) {
    ('a' <= c <= 'z') || ('A' <= c <= 'Z') || ('0' <= c <= '9')
    || c == '_' || c == '-' || c == '/' || c == '.'
  }

  /** A well-formed variable name: non-empty, name characters only, not ending in `/`. */
  predicate ValidName(name: string) {
    |name| > 0 && name[|name| - 1] != '/'
    && forall i :: 0 <= i < |name| ==> NameChar(name[i])
  }

  predicate HasConsecutiveDots(name: string) {
    exists i :: 0 <= i < |name| - 1 && name[i] == '.' && name[i + 1] == '.'
  }

  predicate IsAbsolute(name: string) {
    |name| > 0 && name[0] == '/'
  }

  /** The segments between the dots of a name. */
  function Split(s: string): (segs: seq<string>)
    ensures |segs| >= 1
    ensures forall i :: 0 <= i < |segs| ==> '.' !in segs[i]
  {
    if s == [] then [""]
    else
      var rest := Split(s[1..]);
      if s[0] == '.' then [""] + rest
      else [[s[0]] + rest[0]] + rest[1..]
  }

  /** The segments joined back with dots. */
  function Join(segs: seq<string>): string
    requires |segs| >= 1
  {
    if |segs| == 1 then segs[0] else segs[0] + "." + Join(segs[1..])
  }

  /** Splitting at the dots loses nothing: joining the segments gives the name back. */
  lemma {:induction false} JoinSplit(s: string)
    ensures Join(Split(s)) == s
  {
    if s != [] {
      var rest := Split(s[1..]);
      JoinSplit(s[1..]);
      if s[0] == '.' {
        assert Split(s)[1..] == rest;
      } else {
        var segs := Split(s);
        assert segs[1..] == rest[1..];
        if |rest| == 1 {
          assert Join(segs) == [s[0]] + rest[0];
        } else {
          assert Join(rest) == rest[0] + "." + Join(rest[1..]);
          assert Join(segs) == ([s[0]] + rest[0]) + "." + Join(rest[1..]);
        }
        assert s == [s[0]] + s[1..];
      }
    }
  }

  /** A name without dots is a single segment. */
  lemma {:induction false} SplitWithoutDots(s: string)
    requires '.' !in s
    ensures Split(s) == [s]
  {
    if s != [] {
      SplitWithoutDots(s[1..]);
      assert [s[0]] + s[1..] == s;
    }
  }

  /** A dot ends the first segment. */
  lemma {:induction false} SplitAtDot(a: string, rest: string)
    requires '.' !in a
    ensures Split(a + "." + rest) == [a] + Split(rest)
  {
    if a == [] {
      assert a + "." + rest == "." + rest;
      assert ("." + rest)[1..] == rest;
    } else {
      var s := a + "." + rest;
      assert s[1..] == a[1..] + "." + rest;
      SplitAtDot(a[1..], rest);
      assert [s[0]] + a[1..] == a;
    }
  }

  /** Joining dot-free segments and splitting again gives the segments back. */
  lemma {:induction false} SplitJoin(segs: seq<string>)
    requires |segs| >= 1 && forall i :: 0 <= i < |segs| ==> '.' !in segs[i]
    ensures Split(Join(segs)) == segs
  {
    if |segs| == 1 {
      SplitWithoutDots(segs[0]);
    } else {
      SplitJoin(segs[1..]);
      SplitAtDot(segs[0], Join(segs[1..]));
      assert [segs[0]] + segs[1..] == segs;
    }
  }

  /** The full name of a variable: an absolute name as it is, a relative one under
      the director and deployment. */
  function Namespaced(director: string, deployment: string, name: string): (full: string)
    ensures IsAbsolute(name) ==> full == name
    ensures !IsAbsolute(name) ==> full == "/" + director + "/" + deployment + "/" + name
  {
    if IsAbsolute(name) then name else "/" + director + "/" + deployment + "/" + name
  }

  /** Every full name is absolute, and the name it came from is its suffix. */
  lemma NamespacedIsAbsolute(director: string, deployment: string, name: string)
    ensures IsAbsolute(Namespaced(director, deployment, name))
    ensures var full := Namespaced(director, deployment, name);
      |name| <= |full| && full[|full| - |name|..] == name
  {
  }

  /** The reasons a name is refused with ConfigServerIncorrectNameSyntax. */
  datatype NameError =
    | InvalidName(name: string)
    | ConsecutiveDots(name: string)
    | NotAbsolute(name: string)

  /** What a placeholder refers to: the full name fetched from the config server and
      the keys then walked into the fetched value. */
  datatype Reference = Reference(root: string, keys: seq<string>)

  /** The name of a placeholder parsed into a reference: only the segment before the
      first dot is fetched; the others are keys into its value. */
  function Parse(name: string, director: string, deployment: string, mustBeAbsolute: bool)
    : (r: Result<Reference, NameError>)
    ensures r.Failure? <==>
      !ValidName(name) || HasConsecutiveDots(name) || (mustBeAbsolute && !IsAbsolute(name))
    ensures r.Failure? && !ValidName(name) ==> r.error == InvalidName(name)
    ensures r.Failure? && ValidName(name) && HasConsecutiveDots(name) ==> r.error == ConsecutiveDots(name)
    ensures r.Success? ==>
      r.value.root == Namespaced(director, deployment, Split(name)[0])
      && r.value.keys == Split(name)[1..]
      && Join(Split(name)) == name
    ensures r.Success? && IsAbsolute(name) ==> r.value.root == Split(name)[0] && IsAbsolute(r.value.root)
  {
    if !ValidName(name) then Failure(InvalidName(name))
    else if HasConsecutiveDots(name) then Failure(ConsecutiveDots(name))
    else if mustBeAbsolute && !IsAbsolute(name) then Failure(NotAbsolute(name))
    else
      var segs := Split(name);
      SplitKeepsHead(name);
      JoinSplit(name);
      Success(Reference(Namespaced(director, deployment, segs[0]), segs[1..]))
  }

  /** The first segment starts where the name starts (so it is absolute when the name is). */
  lemma {:induction false} SplitKeepsHead(s: string)
    ensures |s| > 0 && s[0] != '.' ==> |Split(s)[0]| > 0 && Split(s)[0][0] == s[0]
  {
  }

  /** The text of a name-syntax error. */
  function SyntaxMessage(e: NameError): (r: string)
    ensures var lead := "Placeholder name '" + e.name + "' syntax error: ";
      |r| >= |lead| && r[..|lead|] == lead
  {
    var lead := "Placeholder name '" + e.name + "' syntax error: ";
    PrefixOfConcat(lead, SyntaxRule(e));
    lead + SyntaxRule(e)
  }

  /** The rule a refused name breaks. */
  function SyntaxRule(e: NameError): string {
    match e
    case InvalidName(_) =>
      "Must consist of alphanumerics, underscores, dashes, slashes and dots, and not end with a slash"
    case ConsecutiveDots(_) => "Must not contain consecutive dots"
    case NotAbsolute(_) => "Must be absolute path"
  }

  lemma PrefixOfConcat(a: string, b: string)
    ensures (a + b)[..|a|] == a
  {
  }

  /** The decimal digits of a status code. */
  function DecimalString(n: nat): (s: string)
    ensures |s| > 0
    ensures forall i :: 0 <= i < |s| ==> '0' <= s[i] <= '9'
  {
    if n < 10 then [(('0' as int) + n) as char]
    else DecimalString(n / 10) + [(('0' as int) + n % 10) as char]
  }

  /** Digits give the number back, so distinct codes are reported differently. */
  function DecimalValue(s: string): int
    requires forall i :: 0 <= i < |s| ==> '0' <= s[i] <= '9'
  {
    if s == [] then 0 else DecimalValue(s[..|s| - 1]) * 10 + (s[|s| - 1] as int - '0' as int)
  }

  lemma {:induction false} DecimalRoundTrip(n: nat)
    ensures DecimalValue(DecimalString(n)) == n
  {
    if n >= 10 {
      DecimalRoundTrip(n / 10);
      var s := DecimalString(n);
      assert s[..|s| - 1] == DecimalString(n / 10);
    }
  }

  /** `((/nested_placeholder.x.y))` fetches `/nested_placeholder` and walks `x`, `y`. */
  lemma DottedNameFetchesFirstSegment()
    ensures Parse("/nested_placeholder.x.y", "smurf_director_name", "deployment_name", false)
      == Success(Reference("/nested_placeholder", ["x", "y"]))
  {
    var n := "/nested_placeholder.x.y";
    var segs := ["/nested_placeholder", "x", "y"];
    assert ValidName(n) && !HasConsecutiveDots(n);
    assert Join(segs) == n;
    SplitJoin(segs);
    assert IsAbsolute(segs[0]);
  }

  /** `((nested_placeholder..x))` is refused for its consecutive dots. */
  lemma ConsecutiveDotsRefused()
    ensures Parse("nested_placeholder..x", "smurf_director_name", "deployment_name", false)
      == Failure(ConsecutiveDots("nested_placeholder..x"))
  {
    var n := "nested_placeholder..x";
    assert ValidName(n);
    assert n[18] == '.' && n[19] == '.';
  }

  /** A relative name without dots, such as `my_smurf`, is fetched under the director
      and deployment, with no keys to walk. */
  lemma RelativeNameIsNamespaced(name: string, director: string, deployment: string)
    requires ValidName(name) && '.' !in name && !IsAbsolute(name)
    ensures Parse(name, director, deployment, false)
      == Success(Reference("/" + director + "/" + deployment + "/" + name, []))
  {
    SplitWithoutDots(name);
  }
}
