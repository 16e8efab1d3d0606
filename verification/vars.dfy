/** `HttpVariable` and `BaseURL`: the `@name=value` lines of an .http file. */
module Vars {
  import opened Text

  datatype HttpVariable = HttpVariable(name: string, value: string, description: string)

  /** The optional `# description` line that precedes a variable. */
  function DescriptionLine(v: HttpVariable): string {
    if v.description != "" then "# " + v.description + "\n" else ""
  }

  /**
   * `HttpVariable.__str__`: an assignment when the value is non-empty,
   * otherwise a prompt for it.
   */
  function Render(v: HttpVariable): string {
    DescriptionLine(v)
    + (if v.value != "" then "@" + v.name + "=" + v.value + "\n" else "# @prompt " + v.name + "\n")
  }

  /** The tuple `__hash__` hashes. */
  function HashKey(v: HttpVariable): (string, string) {
    (v.name, v.value)
  }

  const BaseUrlName: string := "BASE_URL"

  /** A `BaseURL`: a variable whose name defaults to `BASE_URL`. */
  function BaseUrl(value: string, description: string): (b: HttpVariable)
    ensures b.name == BaseUrlName && b.value == value && b.description == description
  {
    HttpVariable(BaseUrlName, value, description)
  }

  /** The layout of a rendered variable. */
  lemma RenderLayout(v: HttpVariable)
    ensures IsSuffix("\n", Render(v))
    ensures v.value != "" ==> IsSuffix("@" + v.name + "=" + v.value + "\n", Render(v))
    ensures v.value == "" ==> IsSuffix("# @prompt " + v.name + "\n", Render(v))
    ensures v.description != "" ==> IsPrefix("# " + v.description + "\n", Render(v))
    ensures v.description == "" ==> (Render(v)[0] == '@' <==> v.value != "")
  {
    var line := if v.value != "" then "@" + v.name + "=" + v.value + "\n" else "# @prompt " + v.name + "\n";
    assert Render(v) == DescriptionLine(v) + line;
  }

  /** Two variables that differ only in their description hash alike. */
  lemma HashIgnoresDescription(a: HttpVariable, b: HttpVariable)
    ensures HashKey(a) == HashKey(b) <==> a.name == b.name && a.value == b.value
  {
  }

  lemma {:induction false} PromptTextHasNoEquals(name: string, j: nat)
    requires ("prompt " + name)[..|name|] == name
    requires j < |name| + 7
    ensures ("prompt " + name)[j] != '='
    decreases j
  {
    var w := "prompt " + name;
    if j >= 7 {
      assert w[j] == name[j - 7];
      assert name[j - 7] == w[..|name|][j - 7];
      PromptTextHasNoEquals(name, j - 7);
    }
  }

  /** The only `@` of a prompt line with an `@`-free prefix is the one of `@prompt`. */
  lemma PromptAtSign(d: string, name: string, i: int)
    requires '@' !in d
    requires 0 <= i < |d| + 10
    ensures (d + "# @prompt " + name + "\n")[i] == '@' ==> i == |d| + 2
  {
    var r := d + "# @prompt " + name + "\n";
    if i < |d| {
      assert r[i] == d[i];
    } else {
      assert r[i] == "# @prompt "[i - |d|];
    }
  }

  lemma NoAssignmentAt(d: string, name: string, i: int)
    requires '@' !in d
    ensures !OccursAt(d + "# @prompt " + name + "\n", "@" + name + "=", i)
  {
    var r := d + "# @prompt " + name + "\n";
    var t := "@" + name + "=";
    var n := |name|;
    if OccursAt(r, t, i) {
      assert r[i..i + |t|] == t;
      assert r[i] == r[i..i + |t|][0] == '@';
      assert r[i + 1..i + 1 + n] == r[i..i + |t|][1..1 + n] == t[1..1 + n] == name;
      assert r[i + 1 + n] == r[i..i + |t|][1 + n] == t[1 + n] == '=';
      PromptAtSign(d, name, i);
      var w := "prompt " + name;
      assert r[i + 1..] == w + "\n";
      assert w[..n] == (w + "\n")[..n] == r[i + 1..][..n] == name;
      PromptTextHasNoEquals(name, n);
    }
  }

  /**
   * A prompt line never contains an assignment `@name=` of its own variable,
   * whatever the name, as long as the description has no `@` in it.
   */
  lemma PromptNeverAssigns(v: HttpVariable)
    requires v.value == ""
    requires '@' !in v.description
    ensures !Contains(Render(v), "@" + v.name + "=")
  {
    var d := DescriptionLine(v);
    var r := Render(v);
    var t := "@" + v.name + "=";
    assert r == d + "# @prompt " + v.name + "\n";
    assert '@' !in d;
    ContainsIffOccurs(r, t);
    forall i | OccursAt(r, t, i)
      ensures false
    {
      NoAssignmentAt(d, v.name, i);
    }
  }
}
