/**
 * Words of a parsed command line. A word is a non-empty list of parts; each
 * part is literal text or, when `expand` is set, the name of an environment
 * variable. The parser that builds words, and utils.c that resolves them, are
 * not part of this model; resolution is given the meaning the shell relies on.
 */
module Words {

  type Env = map<string, string>

  /** One `word_t` node: its `string` and its `expand` flag. */
  datatype Part = Part(text: string, expand: bool)

  /** A word always has a first part. */
  type Word = w: seq<Part> | |w| > 0 witness [Part("", false)]

  /** The value one part contributes: an unset variable contributes nothing. */
  function PartValue(p: Part, env: Env): string
  {
    if !p.expand then p.text
    else if p.text in env then env[p.text]
    else ""
  }

  /**
   * `get_word`: the concatenation of the values of all parts, in order. A
   * word that starts with literal text starts with that text once resolved.
   */
  function Resolve(parts: seq<Part>, env: Env): (r: string)
    ensures |parts| > 0 && !parts[0].expand ==> parts[0].text <= r
  {
    if parts == [] then "" else PartValue(parts[0], env) + Resolve(parts[1..], env)
  }

  /**
   * `word->string`: the text of the first part only, never expanded. The
   * source uses this for the builtin tests, for redirection paths, for the
   * directory of `cd`, for the name set by an assignment and for the program
   * that is executed.
   */
  function Raw(w: Word): string
  {
    w[0].text
  }

  /**
   * For a literal first part, the raw text is where the resolved word
   * starts: the resolution is the raw text followed by that of the other
   * parts, and for a one-part word it is the raw text itself.
   */
  lemma RawStartsResolution(w: Word, env: Env)
    requires !w[0].expand
    ensures Resolve(w, env) == Raw(w) + Resolve(w[1..], env)
    ensures |w| == 1 ==> Resolve(w, env) == Raw(w)
  {
    assert |w| == 1 ==> w[1..] == [];
  }

  /**
   * `verb->next_part->next_part`: the parts after the name and the `=` part.
   * Resolved, the verb is the first part's value, the second part's value and
   * then the resolution of the rest; a verb with fewer parts has an empty rest.
   */
  function AfterAssign(w: Word): (rest: seq<Part>)
    ensures |w| >= 2 ==> forall env :: Resolve(w, env) == PartValue(w[0], env) + PartValue(w[1], env) + Resolve(rest, env)
    ensures |w| < 2 ==> forall env :: Resolve(rest, env) == ""
  {
    if |w| >= 2 then SplitAfterTwo(w); w[2..] else []
  }

  lemma SplitAfterTwo(w: Word)
    requires |w| >= 2
    ensures forall env :: Resolve(w, env) == PartValue(w[0], env) + PartValue(w[1], env) + Resolve(w[2..], env)
  {
    assert w[1..][1..] == w[2..];
  }

  /**
   * For a verb split by the parser into a literal name, an `=` part and the
   * rest, the resolved verb is the name, `=` and the resolution of
   * AfterAssign: the `=` tested for is the one AfterAssign skips, and the
   * value set is everything after it.
   */
  lemma AssignmentSplit(w: Word, env: Env)
    requires |w| >= 2 && !w[0].expand && w[1] == Part("=", false)
    ensures Resolve(w, env) == Raw(w) + "=" + Resolve(AfterAssign(w), env)
    ensures '=' in Resolve(w, env)
  {
    var rest := AfterAssign(w);
    assert Resolve(w, env) == Raw(w) + "=" + Resolve(rest, env);
    assert Resolve(w, env)[|Raw(w)|] == '=';
  }

  /** A word resolves to "" exactly when each of its parts contributes nothing. */
  lemma {:induction false} ResolveEmpty(parts: seq<Part>, env: Env)
    ensures Resolve(parts, env) == "" <==> forall i :: 0 <= i < |parts| ==> PartValue(parts[i], env) == ""
  {
    if parts != [] {
      ResolveEmpty(parts[1..], env);
      assert forall i :: 1 <= i < |parts| ==> parts[i] == parts[1..][i - 1];
    }
  }

  /** Resolving parts one after another resolves their concatenation. */
  lemma {:induction false} ResolveAppend(a: seq<Part>, b: seq<Part>, env: Env)
    ensures Resolve(a + b, env) == Resolve(a, env) + Resolve(b, env)
  {
    if a == [] {
      assert a + b == b;
    } else {
      assert (a + b)[0] == a[0];
      assert (a + b)[1..] == a[1..] + b;
      ResolveAppend(a[1..], b, env);
    }
  }

  ghost predicate Literal(parts: seq<Part>)
  {
    forall i :: 0 <= i < |parts| ==> !parts[i].expand
  }

  /** A word without variable parts means the same in every environment. */
  lemma {:induction false} LiteralIgnoresEnv(parts: seq<Part>, e1: Env, e2: Env)
    requires Literal(parts)
    ensures Resolve(parts, e1) == Resolve(parts, e2)
  {
    if parts != [] {
      assert !parts[0].expand;
      assert Literal(parts[1..]) by {
        forall i | 0 <= i < |parts[1..]| ensures !parts[1..][i].expand {
          assert parts[1..][i] == parts[i + 1];
        }
      }
      LiteralIgnoresEnv(parts[1..], e1, e2);
    }
  }

  /** A variable part resolves to the variable's value, or to "" when it is unset. */
  lemma {:induction false} VariableResolves(name: string, env: Env)
    ensures Resolve([Part(name, true)], env) == (if name in env then env[name] else "")
  {
    assert [Part(name, true)][1..] == [];
  }

  /** Resolution of every word of a list (the parameters of `get_argv`). */
  function ResolveAll(ws: seq<Word>, env: Env): (r: seq<string>)
    ensures |r| == |ws|
    ensures forall i :: 0 <= i < |ws| ==> r[i] == Resolve(ws[i], env)
  {
    if ws == [] then [] else [Resolve(ws[0], env)] + ResolveAll(ws[1..], env)
  }
}
