/** How `MCPMemoryStore` writes a (namespace, key) address into the names of the knowledge graph,
    reads it back, and filters by namespace prefix (src/agents/memory_store.py). */
module MemoryKeys {
  import opened Text

  type Namespace = seq<string>

  const ROOT := "langgraph"

  function EntityNamespace(ns: Namespace): string {
    if Join(ns, '/') != "" then ROOT + "/" + Join(ns, '/') else ROOT
  }

  function EntityName(ns: Namespace, key: string): string {
    if Join(ns, '/') != "" then ROOT + "/" + Join(ns, '/') + "/" + key else ROOT + "/" + key
  }

  function NamespaceOf(entityNamespace: string): Namespace {
    if entityNamespace == ROOT then []
    else if ROOT + "/" <= entityNamespace then Split(entityNamespace[|ROOT| + 1..], '/')
    else Split(entityNamespace, '/')
  }

  function KeyOf(name: string): string {
    if '/' in name then CutLast(name, '/').1 else name
  }

  /** The addresses that survive: no slash inside a segment, and not the one-segment namespace
      whose segment is empty, which joins to the same text as the empty namespace. */
  predicate Clean(ns: Namespace) {
    (forall i :: 0 <= i < |ns| ==> '/' !in ns[i]) && ns != [""]
  }

  lemma JoinIsEmpty(ns: Namespace)
    ensures Join(ns, '/') == "" <==> ns == [] || ns == [""]
  {
  }

  /** The stored name is the stored namespace, a slash, and the key. */
  lemma NameSplits(ns: Namespace, key: string)
    ensures EntityName(ns, key) == EntityNamespace(ns) + ['/'] + key
  {
    if Join(ns, '/') != "" {
      assert ROOT + "/" + Join(ns, '/') + "/" + key == (ROOT + "/" + Join(ns, '/')) + ['/'] + key;
    }
  }

  /** Decoding a stored namespace gives the namespace back exactly for the clean ones. */
  lemma NamespaceRoundTrip(ns: Namespace)
    ensures NamespaceOf(EntityNamespace(ns)) == ns <==> Clean(ns)
  {
    JoinIsEmpty(ns);
    if ns != [] && ns != [""] {
      var body := Join(ns, '/');
      assert EntityNamespace(ns) == ROOT + "/" + body;
      assert (ROOT + "/" + body)[|ROOT| + 1..] == body;
      assert NamespaceOf(EntityNamespace(ns)) == Split(body, '/');
      SplitInverse(body, '/');
      if Clean(ns) {
        JoinInverse(ns, '/');
      }
    }
  }

  /** A namespace outside the root is read as its segments. */
  lemma ForeignNamespaces(s: string)
    requires s != ROOT && !(ROOT + "/" <= s)
    ensures Join(NamespaceOf(s), '/') == s
    ensures forall i :: 0 <= i < |NamespaceOf(s)| ==> '/' !in NamespaceOf(s)[i]
  {
    SplitInverse(s, '/');
  }

  /** Decoding a stored name gives the key back exactly for the slash-free ones. */
  lemma KeyRoundTrip(ns: Namespace, key: string)
    ensures KeyOf(EntityName(ns, key)) == key <==> '/' !in key
  {
    NameSplits(ns, key);
    var name := EntityName(ns, key);
    assert name[|EntityNamespace(ns)|] == '/';
    if '/' !in key {
      CutLastIsUnique(EntityNamespace(ns), '/', key);
    }
  }

  /** Two clean addresses never share an entity. */
  lemma NamesAreInjective(ns: Namespace, key: string, ns': Namespace, key': string)
    requires Clean(ns) && Clean(ns') && '/' !in key && '/' !in key'
    requires EntityName(ns, key) == EntityName(ns', key')
    ensures ns == ns' && key == key'
  {
    NameSplits(ns, key);
    NameSplits(ns', key');
    CutLastIsUnique(EntityNamespace(ns), '/', key);
    CutLastIsUnique(EntityNamespace(ns'), '/', key');
    NamespaceRoundTrip(ns);
    NamespaceRoundTrip(ns');
  }

  // ---- the prefix filter: `namespace = %s OR namespace LIKE %s` ----

  /** SQL LIKE, with '%', '_' and the default escape character. */
  predicate Like(s: string, p: string)
    decreases |s| + |p|
  {
    if p == "" then s == ""
    else if p[0] == '%' then Like(s, p[1..]) || (s != "" && Like(s[1..], p))
    else if p[0] == '_' then s != "" && Like(s[1..], p[1..])
    else if p[0] == '\\' then |p| > 1 && s != "" && s[0] == p[1] && Like(s[1..], p[2..])
    else s != "" && s[0] == p[0] && Like(s[1..], p[1..])
  }

  predicate Selected(entityNamespace: string, prefix: Namespace) {
    || entityNamespace == EntityNamespace(prefix)
    || Like(entityNamespace, EntityNamespace(prefix) + "/%")
  }

  predicate Literal(s: string) {
    '%' !in s && '_' !in s && '\\' !in s
  }

  predicate LiteralNs(ns: Namespace) {
    forall i :: 0 <= i < |ns| ==> Literal(ns[i])
  }

  lemma {:induction false} LikeAnything(s: string)
    ensures Like(s, "%")
    decreases |s|
  {
    if s == "" {
      assert Like(s, "%"[1..]);
    } else {
      LikeAnything(s[1..]);
    }
  }

  lemma {:induction false} LikeLiteral(s: string, u: string, p: string)
    requires Literal(u)
    ensures Like(s, u + p) <==> u <= s && Like(s[|u|..], p)
    decreases |u|
  {
    if u == "" {
      assert u + p == p && s[0..] == s;
    } else {
      assert (u + p)[1..] == u[1..] + p;
      if s != "" && s[0] == u[0] {
        LikeLiteral(s[1..], u[1..], p);
        assert u <= s <==> u[1..] <= s[1..] by {
          assert u == [u[0]] + u[1..] && s == [s[0]] + s[1..];
        }
        if u <= s {
          assert s[1..][|u[1..]|..] == s[|u|..];
        }
      }
    }
  }

  lemma {:induction false} JoinAppend(a: seq<string>, rest: string)
    requires a != []
    ensures Join(a + [rest], '/') == Join(a, '/') + "/" + rest
  {
    if |a| == 1 {
      assert (a + [rest])[1..] == [rest];
    } else {
      JoinAppend(a[1..], rest);
      assert (a + [rest])[1..] == a[1..] + [rest];
    }
  }

  /** On slash-free parts, one joined text followed by a slash starts another exactly when the one
      list is a proper prefix of the other. */
  lemma JoinPrefix(a: seq<string>, b: seq<string>)
    requires a != [] && b != []
    requires forall i :: 0 <= i < |a| ==> '/' !in a[i]
    requires forall i :: 0 <= i < |b| ==> '/' !in b[i]
    ensures Join(a, '/') + "/" <= Join(b, '/') <==> a < b
  {
    var text := Join(a, '/') + "/";
    if text <= Join(b, '/') {
      PrefixOfTexts(a, b, Join(b, '/')[|text|..]);
    }
    if a < b {
      PrefixOfLists(a, b);
    }
  }

  lemma PrefixOfTexts(a: seq<string>, b: seq<string>, rest: string)
    requires a != [] && b != []
    requires forall i :: 0 <= i < |a| ==> '/' !in a[i]
    requires forall i :: 0 <= i < |b| ==> '/' !in b[i]
    requires Join(b, '/') == Join(a, '/') + "/" + rest
    ensures a < b
  {
    JoinAppend(a, rest);
    SplitOfJoin(a, rest, '/');
    JoinInverse(b, '/');
    assert b == a + Split(rest, '/');
  }

  lemma PrefixOfLists(a: seq<string>, b: seq<string>)
    requires a != [] && a < b
    ensures Join(a, '/') + "/" <= Join(b, '/')
  {
    var rest := Join(b[|a|..], '/');
    JoinOfTail(b, |a|, '/');
    assert b[..|a|] == a;
    JoinAppend(a, rest);
  }

  lemma RootedJoin(ns: Namespace)
    requires Clean(ns)
    ensures EntityNamespace(ns) == Join([ROOT] + ns, '/')
  {
    JoinIsEmpty(ns);
    assert ([ROOT] + ns)[1..] == ns;
  }

  lemma {:induction false} JoinLiteral(ns: seq<string>)
    ensures Literal(Join(ns, '/')) <==> LiteralNs(ns)
  {
    if |ns| > 1 {
      JoinLiteral(ns[1..]);
      assert LiteralNs(ns) <==> Literal(ns[0]) && LiteralNs(ns[1..]) by {
        assert ns == [ns[0]] + ns[1..];
      }
    }
  }

  /** The text filter selects exactly the namespaces the tuple prefix selects. */
  lemma PrefixFilterIsExact(ns: Namespace, prefix: Namespace)
    requires Clean(ns) && Clean(prefix) && LiteralNs(prefix)
    ensures Selected(EntityNamespace(ns), prefix) <==> prefix <= ns
  {
    var a, b := [ROOT] + prefix, [ROOT] + ns;
    RootedJoin(ns);
    RootedJoin(prefix);
    JoinLiteral(a);
    JoinPrefix(a, b);
    SelectedByText(EntityNamespace(ns), prefix);
    if EntityNamespace(ns) == EntityNamespace(prefix) {
      JoinInverse(a, '/');
      JoinInverse(b, '/');
    }
    PrefixUnderRoot(prefix, ns);
  }

  /** Without wildcards in the prefix, LIKE is a plain prefix test. */
  lemma SelectedByText(s: string, prefix: Namespace)
    requires Literal(EntityNamespace(prefix))
    ensures Selected(s, prefix)
      <==> s == EntityNamespace(prefix) || EntityNamespace(prefix) + "/" <= s
  {
    var p := EntityNamespace(prefix) + "/";
    assert EntityNamespace(prefix) + "/%" == p + "%";
    LikeLiteral(s, p, "%");
    if p <= s {
      LikeAnything(s[|p|..]);
    }
  }

  lemma PrefixUnderRoot(p: seq<string>, s: seq<string>)
    ensures p <= s <==> [ROOT] + p == [ROOT] + s || [ROOT] + p < [ROOT] + s
  {
    var a, b := [ROOT] + p, [ROOT] + s;
    assert a[1..] == p && b[1..] == s;
    if a <= b {
      assert b == a + b[|a|..];
      assert s == p + b[|a|..];
    }
    if p <= s {
      assert b == a + s[|p|..];
    }
  }

  // ---- wildcards and escapes in a prefix spoil it ----

  /** No escape character is left without a character to escape. */
  predicate Closed(p: string) {
    p == "" || if p[0] == '\\' then |p| > 1 && Closed(p[2..]) else Closed(p[1..])
  }

  /** A text the pattern matches: 'x' for a wildcard, the escaped character for an escape. */
  function Matched(p: string): (s: string)
    ensures |s| <= |p|
  {
    if p == "" then ""
    else if p[0] in {'%', '_'} then "x" + Matched(p[1..])
    else if p[0] == '\\' then (if |p| == 1 then "" else [p[1]] + Matched(p[2..]))
    else [p[0]] + Matched(p[1..])
  }

  lemma {:induction false} LikeMatched(p: string, t: string, q: string)
    requires Closed(p) && Like(t, q)
    ensures Like(Matched(p) + t, p + q)
    decreases |p|
  {
    var s := Matched(p) + t;
    if p == "" {
      assert s == t && p + q == q;
    } else if p[0] == '\\' {
      LikeMatched(p[2..], t, q);
      assert s[1..] == Matched(p[2..]) + t && (p + q)[2..] == p[2..] + q;
    } else {
      LikeMatched(p[1..], t, q);
      assert s[1..] == Matched(p[1..]) + t && (p + q)[1..] == p[1..] + q;
      if p[0] == '%' {
        LikeSkip(s[1..], p + q);
      }
    }
  }

  lemma LikeSkip(s: string, p: string)
    requires p != "" && p[0] == '%' && Like(s, p[1..])
    ensures Like(s, p)
  {
  }

  lemma {:induction false} ClosedBySlash(p: string)
    ensures Closed(p + "/")
    decreases |p|
  {
    if |p| > 1 && p[0] == '\\' {
      ClosedBySlash(p[2..]);
      assert (p + "/")[2..] == p[2..] + "/";
    } else if p != "" && p[0] != '\\' {
      ClosedBySlash(p[1..]);
      assert (p + "/")[1..] == p[1..] + "/";
    }
  }

  /** An escape makes the match shorter than the pattern; a wildcard makes it different. */
  lemma {:induction false} MatchedIsPattern(p: string)
    ensures |Matched(p)| == |p| <==> '\\' !in p
    ensures Matched(p) == p <==> Literal(p)
  {
    if p != "" {
      MatchedIsPattern(p[1..]);
      assert p == [p[0]] + p[1..];
    }
  }

  /** A wildcard or an escape in the prefix lets a namespace through that the tuple prefix excludes. */
  lemma SelectsTooMuch(prefix: Namespace) returns (ns: Namespace)
    requires Clean(prefix) && !LiteralNs(prefix)
    ensures Clean(ns) && Selected(EntityNamespace(ns), prefix) && !(prefix <= ns)
  {
    var body := Join(prefix, '/');
    var tail := seq(|body| + 2, _ => 'x');
    var text := Matched(body + "/") + tail;
    ns := Split(text, '/');
    SplitInverse(text, '/');
    JoinIsEmpty(ns);
    JoinIsEmpty(prefix);
    IsSelected(prefix, body, text, tail);
    IsNoExtension(prefix, body, tail);
    IsNotUnder(prefix, ns);
  }

  lemma IsNotUnder(prefix: Namespace, ns: Namespace)
    requires prefix != [] && Join(prefix, '/') != Join(ns, '/')
    requires !(Join(prefix, '/') + "/" <= Join(ns, '/'))
    ensures !(prefix <= ns)
  {
    if prefix < ns {
      PrefixOfLists(prefix, ns);
    }
  }

  lemma IsSelected(prefix: Namespace, body: string, text: string, tail: string)
    requires body == Join(prefix, '/') != "" && text == Matched(body + "/") + tail
    ensures Like(ROOT + "/" + text, EntityNamespace(prefix) + "/%")
  {
    ClosedBySlash(body);
    LikeAnything(tail);
    LikeMatched(body + "/", tail, "%");
    var rest := body + "/" + "%";
    assert EntityNamespace(prefix) + "/%" == (ROOT + "/") + rest;
    var s := ROOT + "/" + text;
    LikeLiteral(s, ROOT + "/", rest);
    assert s[|ROOT + "/"|..] == text;
  }

  lemma IsNoExtension(prefix: Namespace, body: string, tail: string)
    requires body == Join(prefix, '/') && !LiteralNs(prefix)
    requires |tail| >= |body| + 2 && forall i :: 0 <= i < |tail| ==> tail[i] == 'x'
    ensures !(body + "/" <= Matched(body + "/") + tail)
  {
    var p := body + "/";
    JoinLiteral(prefix);
    MatchedIsPattern(p);
    var text := Matched(p) + tail;
    if |Matched(p)| == |p| {
      assert text[..|p|] == Matched(p);
    } else {
      assert text[|body|] == 'x' && p[|body|] == '/';
    }
  }

  /** The filter is exact on all clean namespaces exactly when the prefix holds no wildcard and no
      escape character. */
  lemma FilterIsExactIffLiteral(prefix: Namespace)
    requires Clean(prefix)
    ensures (forall ns :: Clean(ns) ==> (Selected(EntityNamespace(ns), prefix) <==> prefix <= ns))
      <==> LiteralNs(prefix)
  {
    if LiteralNs(prefix) {
      forall ns | Clean(ns)
        ensures Selected(EntityNamespace(ns), prefix) <==> prefix <= ns
      {
        PrefixFilterIsExact(ns, prefix);
      }
    } else {
      var ns := SelectsTooMuch(prefix);
    }
  }
}
