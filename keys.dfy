/** Identifier derivation and cache-key naming, as written inline in both
    versions of the service (`name.replace(' ', '_')` and the f-string keys). */
module Keys {

  const ListPrefix: string := "task-list-key_"
  const TaskPrefix: string := "task-key_"

  /** The character spaces are turned into, which also joins the two parts of a task key. */
  const Separator: char := '_'

  /** Identifier derived from a human-supplied name: every space becomes `_`;
      no other character, whitespace or not, is touched. */
  function NormalizeId(name: string): (id: string)
    ensures |id| == |name|
    ensures forall i :: 0 <= i < |name| ==> id[i] == (if name[i] == ' ' then Separator else name[i])
  {
    if name == [] then []
    else [if name[0] == ' ' then Separator else name[0]] + NormalizeId(name[1..])
  }

  /** Cache key of the list with identifier `listId`. */
  function ListKey(listId: string): (k: string)
    ensures |k| == |ListPrefix| + |listId|
    ensures k[..|ListPrefix|] == ListPrefix && k[|ListPrefix|..] == listId
  {
    ListPrefix + listId
  }

  /** Cache key of task `taskId` of list `listId`. */
  function TaskKey(listId: string, taskId: string): (k: string)
    ensures |k| == |TaskPrefix| + |listId| + 1 + |taskId|
    ensures k[..|TaskPrefix|] == TaskPrefix
    ensures k[|TaskPrefix|..|TaskPrefix| + |listId|] == listId
    ensures k[|TaskPrefix| + |listId|] == Separator
    ensures k[|TaskPrefix| + |listId| + 1..] == taskId
  {
    TaskPrefix + listId + [Separator] + taskId
  }

  /** A derived identifier never contains a space, and deriving again changes nothing. */
  lemma NormalizeIdIdempotent(name: string)
    ensures ' ' !in NormalizeId(name)
    ensures NormalizeId(NormalizeId(name)) == NormalizeId(name)
  {
    var id := NormalizeId(name);
    assert forall i :: 0 <= i < |id| ==> id[i] != ' ';
  }

  /** A name is its own identifier exactly when it has no space in it. */
  lemma NormalizeIdFixesSpaceFree(name: string)
    ensures NormalizeId(name) == name <==> ' ' !in name
  {
    if ' ' in name {
      var i :| 0 <= i < |name| && name[i] == ' ';
      assert NormalizeId(name)[i] != name[i];
    }
  }

  /** Two different names can share an identifier: "a b" and "a_b" both give "a_b". */
  lemma NormalizeIdNotInjective()
    ensures NormalizeId("a b") == NormalizeId("a_b") == "a_b"
  {
    assert NormalizeId("a b")[1] == '_';
  }

  /** Only the space character is replaced: a tab survives. */
  lemma NormalizeIdKeepsTab()
    ensures NormalizeId("a\tb") == "a\tb"
  {
    var id := NormalizeId("a\tb");
    assert id[1] == '\t';
  }

  /** A name without spaces is its own identifier: "Groceries" gives "Groceries". */
  lemma NormalizeIdGroceries()
    ensures NormalizeId("Groceries") == "Groceries"
  {
    NormalizeIdFixesSpaceFree("Groceries");
  }

  /** Deriving an identifier works character by character, so it distributes over concatenation. */
  lemma NormalizeIdConcat(a: string, b: string)
    ensures NormalizeId(a + b) == NormalizeId(a) + NormalizeId(b)
  {
    var l, r := NormalizeId(a + b), NormalizeId(a) + NormalizeId(b);
    forall i | 0 <= i < |l| ensures l[i] == r[i] {
      if i < |a| { assert (a + b)[i] == a[i]; } else { assert (a + b)[i] == b[i - |a|]; }
    }
  }

  /** Two space-free words joined by one space give the words joined by the separator. */
  lemma NormalizeIdJoin(a: string, b: string)
    requires ' ' !in a && ' ' !in b
    ensures NormalizeId(a + " " + b) == a + [Separator] + b
  {
    NormalizeIdConcat(a + " ", b);
    NormalizeIdConcat(a, " ");
    NormalizeIdFixesSpaceFree(a);
    NormalizeIdFixesSpaceFree(b);
  }

  lemma GroceryListWords()
    ensures ' ' !in "Grocery" && ' ' !in "List"
    ensures "Grocery" + " " + "List" == "Grocery List"
    ensures "Grocery" + [Separator] + "List" == "Grocery_List"
  {
  }

  /** A space becomes the separator: "Grocery List" gives "Grocery_List". */
  lemma NormalizeIdGroceryList()
    ensures NormalizeId("Grocery List") == "Grocery_List"
  {
    GroceryListWords();
    NormalizeIdJoin("Grocery", "List");
  }

  /** Distinct list identifiers have distinct list keys. */
  lemma ListKeyInjective(a: string, b: string)
    ensures ListKey(a) == ListKey(b) <==> a == b
  {
    if ListKey(a) == ListKey(b) {
      assert a == ListKey(a)[|ListPrefix|..];
      assert b == ListKey(b)[|ListPrefix|..];
    }
  }

  /** A list key is never a task key: the prefixes differ at their sixth character. */
  lemma KeysDisjoint()
    ensures forall id, l, t :: ListKey(id) != TaskKey(l, t)
  {
    forall id, l, t ensures ListKey(id) != TaskKey(l, t) {
      assert ListKey(id)[5] == 'l';
      assert TaskKey(l, t)[5] == 'k';
    }
  }

  /** Task keys do not determine the pair they came from: list "a_b" with task "c"
      and list "a" with task "b_c" share a key. The list names "a b" and "a", with
      task names "c" and "b c", produce exactly these identifiers. */
  lemma TaskKeyCollision()
    ensures ("a_b", "c") != ("a", "b_c")
    ensures TaskKey("a_b", "c") == TaskKey("a", "b_c")
    ensures NormalizeId("a b") == "a_b" && NormalizeId("b c") == "b_c"
  {
    NormalizeIdNotInjective();
    assert NormalizeId("b c")[1] == '_';
  }

  /** The part of `s` before the first occurrence of `c`. */
  function PrefixUntil(s: string, c: char): (p: string)
    ensures p <= s
  {
    if s == [] || s[0] == c then [] else [s[0]] + PrefixUntil(s[1..], c)
  }

  lemma {:induction false} PrefixUntilJoin(l: string, t: string, c: char)
    requires c !in l
    ensures PrefixUntil(l + [c] + t, c) == l
  {
    if l != [] {
      assert (l + [c] + t)[1..] == l[1..] + [c] + t;
      PrefixUntilJoin(l[1..], t, c);
    }
  }

  /** When list identifiers hold no separator, a task key determines its list and task. */
  lemma TaskKeyInjective(l1: string, t1: string, l2: string, t2: string)
    requires Separator !in l1 && Separator !in l2
    ensures TaskKey(l1, t1) == TaskKey(l2, t2) <==> l1 == l2 && t1 == t2
  {
    if TaskKey(l1, t1) == TaskKey(l2, t2) {
      var s1, s2 := l1 + [Separator] + t1, l2 + [Separator] + t2;
      assert s1 == TaskKey(l1, t1)[|TaskPrefix|..];
      assert s2 == TaskKey(l2, t2)[|TaskPrefix|..];
      PrefixUntilJoin(l1, t1, Separator);
      PrefixUntilJoin(l2, t2, Separator);
      assert l1 == l2;
      assert t1 == s1[|l1| + 1..];
      assert t2 == s2[|l2| + 1..];
    }
  }

  /** The task keys of the given members of list `listId`: deleting them never
      touches a list key. */
  function TaskKeySet(listId: string, tasks: seq<string>): (ks: set<string>)
    ensures forall t :: t in tasks ==> TaskKey(listId, t) in ks
    ensures forall id :: ListKey(id) !in ks
  {
    KeysDisjoint();
    set t | t in tasks :: TaskKey(listId, t)
  }
}
