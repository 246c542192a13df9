/** Null discipline and source masks (src/arknights_mcp/mcp/payload_hygiene.py). */
module PayloadHygiene {
  import opened Json
  import opened JsonText
  import opened Lists

  type Fields = seq<(string, Value)>

  const MASKABLE_WORDS: seq<string> := ["name", "description", "title", "code"]

  predicate EndsInWord(key: string, w: string) {
    |w| <= |key| && key[|key| - |w|..] == w && (|w| < |key| ==> key[|key| - |w| - 1] == '_')
  }

  /** `(^|_)(name|description|title|code)$`; `$` also matches before a final newline. */
  predicate MaskableKey(key: string) {
    || (exists w :: w in MASKABLE_WORDS && EndsInWord(key, w))
    || (key != "" && key[|key| - 1] == '\n' && exists w :: w in MASKABLE_WORDS && EndsInWord(key[..|key| - 1], w))
  }

  /** `is_source_mask`; `isWord` is Unicode's \w. White space is no word character, so stripping
      it first changes nothing. */
  predicate IsSourceMask(text: string, isWord: char -> bool) {
    forall c :: c in text ==> !isWord(c)
  }

  predicate IsMaskLeaf(key: string, v: Value, isWord: char -> bool) {
    v.Str? && MaskableKey(key) && IsSourceMask(v.text, isWord)
  }

  function ChildPath(path: string, name: string): string { if path != "" then path + "." + name else name }

  function ItemPath(path: string, i: nat): string { path + "[" + Digits(i) + "]" }

  // ---------------------------------------------------------------- specification

  function Clean(v: Value): Value
    decreases v, 0
  {
    match v
    case Obj(fields) => Obj(CleanFields(fields))
    case Arr(items) => Arr(CleanItems(items))
    case _ => v
  }

  function CleanFields(fields: Fields): Fields
    decreases fields, 1
  {
    if fields == [] then []
    else (if fields[0].1 == Null then [] else [CleanField(fields[0])]) + CleanFields(fields[1..])
  }

  function CleanField(f: (string, Value)): (string, Value)
    decreases f, 1
  {
    (f.0, Clean(f.1))
  }

  function CleanItems(items: seq<Value>): (r: seq<Value>)
    ensures |r| == |items|
    decreases items, 1
  {
    if items == [] then [] else [Clean(items[0])] + CleanItems(items[1..])
  }

  type Masks = seq<(string, string)>

  function MasksOf(v: Value, path: string, isWord: char -> bool): Masks
    decreases v, 0
  {
    match v
    case Obj(fields) => MasksOfFields(fields, path, isWord)
    case Arr(items) => MasksOfItems(items, 0, path, isWord)
    case _ => []
  }

  function MasksOfFields(fields: Fields, path: string, isWord: char -> bool): Masks
    decreases fields, 2
  {
    if fields == [] then [] else MasksOfField(fields[0], path, isWord) + MasksOfFields(fields[1..], path, isWord)
  }

  function MasksOfField(f: (string, Value), path: string, isWord: char -> bool): Masks
    decreases f, 1
  {
    if f.1 == Null then []
    else
      var child := ChildPath(path, f.0);
      (if IsMaskLeaf(f.0, f.1, isWord) then [(child, f.1.text)] else []) + MasksOf(f.1, child, isWord)
  }

  function MasksOfItems(items: seq<Value>, from: nat, path: string, isWord: char -> bool): Masks
    decreases items, 2
  {
    if items == [] then []
    else MasksOf(items[0], ItemPath(path, from), isWord) + MasksOfItems(items[1..], from + 1, path, isWord)
  }

  // ---------------------------------------------------------------- the code

  /** The mask list that one walk shares and appends to. */
  class MaskList {
    var masks: Masks

    constructor ()
      ensures masks == []
    {
      masks := [];
    }
  }

  lemma CleanFieldsCons(f: (string, Value), rest: Fields)
    ensures CleanFields([f] + rest) == (if f.1 == Null then [] else [CleanField(f)]) + CleanFields(rest)
  {
    assert ([f] + rest)[1..] == rest;
  }

  lemma {:induction false} CleanFieldsAppend(a: Fields, f: (string, Value))
    ensures CleanFields(a + [f]) == CleanFields(a) + (if f.1 == Null then [] else [CleanField(f)])
  {
    if a == [] {
      assert a + [f] == [f] + [];
      CleanFieldsCons(f, []);
    } else {
      var h, t := a[0], a[1..];
      CleanFieldsAppend(t, f);
      CleanFieldsCons(h, t);
      CleanFieldsCons(h, t + [f]);
      assert a == [h] + t && a + [f] == [h] + (t + [f]);
    }
  }

  lemma FieldMasksCons(f: (string, Value), rest: Fields, path: string, isWord: char -> bool)
    ensures MasksOfFields([f] + rest, path, isWord) == MasksOfField(f, path, isWord) + MasksOfFields(rest, path, isWord)
  {
    assert ([f] + rest)[1..] == rest;
  }

  lemma {:induction false} MasksOfFieldsAppend(a: Fields, f: (string, Value), path: string, isWord: char -> bool)
    ensures MasksOfFields(a + [f], path, isWord) == MasksOfFields(a, path, isWord) + MasksOfField(f, path, isWord)
  {
    if a == [] {
      assert a + [f] == [f] + [];
      FieldMasksCons(f, [], path, isWord);
    } else {
      var h, t := a[0], a[1..];
      MasksOfFieldsAppend(t, f, path, isWord);
      FieldMasksCons(h, t, path, isWord);
      FieldMasksCons(h, t + [f], path, isWord);
      Associate(MasksOfField(h, path, isWord), MasksOfFields(t, path, isWord), MasksOfField(f, path, isWord));
      assert a == [h] + t && a + [f] == [h] + (t + [f]);
    }
  }

  lemma {:induction false} CleanItemsAppend(a: seq<Value>, v: Value)
    ensures CleanItems(a + [v]) == CleanItems(a) + [Clean(v)]
  {
    if a == [] {
      assert a + [v] == [v];
    } else {
      assert (a + [v])[1..] == a[1..] + [v];
      CleanItemsAppend(a[1..], v);
    }
  }

  lemma ItemMasksCons(v: Value, rest: seq<Value>, from: nat, path: string, isWord: char -> bool)
    ensures MasksOfItems([v] + rest, from, path, isWord)
         == MasksOf(v, ItemPath(path, from), isWord) + MasksOfItems(rest, from + 1, path, isWord)
  {
    assert ([v] + rest)[1..] == rest;
  }

  lemma {:induction false} MasksOfItemsAppend(a: seq<Value>, v: Value, from: nat, path: string, isWord: char -> bool)
    ensures MasksOfItems(a + [v], from, path, isWord)
         == MasksOfItems(a, from, path, isWord) + MasksOf(v, ItemPath(path, from + |a|), isWord)
  {
    if a == [] {
      assert a + [v] == [v] + [];
      ItemMasksCons(v, [], from, path, isWord);
    } else {
      var h, t := a[0], a[1..];
      MasksOfItemsAppend(t, v, from + 1, path, isWord);
      ItemMasksCons(h, t, from, path, isWord);
      ItemMasksCons(h, t + [v], from, path, isWord);
      Associate(MasksOf(h, ItemPath(path, from), isWord), MasksOfItems(t, from + 1, path, isWord),
        MasksOf(v, ItemPath(path, from + |a|), isWord));
      assert a == [h] + t && a + [v] == [h] + (t + [v]);
    }
  }

  /** `_clean`, lines 84-109, by the kind of node. */
  method CleanNode(node: Value, path: string, log: MaskList, isWord: char -> bool) returns (out: Value)
    modifies log
    ensures out == Clean(node)
    ensures log.masks == old(log.masks) + MasksOf(node, path, isWord)
    decreases node, 3
  {
    match node
    case Obj(fields) =>
      var cleaned := CleanMapping(fields, path, log, isWord);
      out := Obj(cleaned);
    case Arr(items) =>
      var cleaned := CleanSequence(items, path, log, isWord);
      out := Arr(cleaned);
    case _ =>
      out := node;
  }

  method CleanMapping(fields: Fields, path: string, log: MaskList, isWord: char -> bool) returns (cleaned: Fields)
    modifies log
    ensures cleaned == CleanFields(fields)
    ensures log.masks == old(log.masks) + MasksOfFields(fields, path, isWord)
    decreases fields, 2
  {
    cleaned := [];
    for i := 0 to |fields|
      invariant cleaned == CleanFields(fields[..i])
      invariant log.masks == old(log.masks) + MasksOfFields(fields[..i], path, isWord)
    {
      assert fields[..i + 1] == fields[..i] + [fields[i]];
      CleanFieldsAppend(fields[..i], fields[i]);
      MasksOfFieldsAppend(fields[..i], fields[i], path, isWord);
      if fields[i].1 == Null {
        continue;
      }
      var inner := CleanItem(fields[i], path, log, isWord);
      cleaned := cleaned + [inner];
    }
    assert fields[..|fields|] == fields;
  }

  /** The body of the loop over a dictionary, for a value that is not null. */
  method CleanItem(f: (string, Value), path: string, log: MaskList, isWord: char -> bool) returns (out: (string, Value))
    requires f.1 != Null
    modifies log
    ensures out == CleanField(f)
    ensures log.masks == old(log.masks) + MasksOfField(f, path, isWord)
    decreases f, 1
  {
    var (name, value) := f;
    var child := if path != "" then path + "." + name else name;
    if value.Str? && MaskableKey(name) && IsSourceMask(value.text, isWord) {
      log.masks := log.masks + [(child, value.text)];
    }
    var inner := CleanNode(value, child, log, isWord);
    out := (name, inner);
  }

  method CleanSequence(items: seq<Value>, path: string, log: MaskList, isWord: char -> bool)
    returns (cleaned: seq<Value>)
    modifies log
    ensures cleaned == CleanItems(items)
    ensures log.masks == old(log.masks) + MasksOfItems(items, 0, path, isWord)
    decreases items, 2
  {
    cleaned := [];
    for i := 0 to |items|
      invariant cleaned == CleanItems(items[..i])
      invariant log.masks == old(log.masks) + MasksOfItems(items[..i], 0, path, isWord)
    {
      assert items[..i + 1] == items[..i] + [items[i]];
      CleanItemsAppend(items[..i], items[i]);
      MasksOfItemsAppend(items[..i], items[i], 0, path, isWord);
      var inner := CleanNode(items[i], path + "[" + Digits(i) + "]", log, isWord);
      cleaned := cleaned + [inner];
    }
    assert items[..|items|] == items;
  }

  /** `clean_payload`, lines 139-148: at most one limitation, exactly when a mask was found. */
  method CleanPayload(data: Fields, isWord: char -> bool, disclose: Masks -> string)
    returns (payload: Fields, limitations: seq<string>)
    ensures payload == CleanFields(data)
    ensures var masks := MasksOf(Obj(data), "", isWord);
            limitations == if masks == [] then [] else [disclose(masks)]
  {
    var log := new MaskList();
    var cleaned := CleanNode(Obj(data), "", log, isWord);
    assert log.masks == MasksOf(Obj(data), "", isWord);
    return cleaned.fields, if log.masks != [] then [disclose(log.masks)] else [];
  }

  // ---------------------------------------------------------------- main results

  predicate NoNullField(v: Value)
    decreases v, 0
  {
    match v
    case Obj(fields) => forall i :: 0 <= i < |fields| ==> fields[i].1 != Null && NoNullField(fields[i].1)
    case Arr(items) => forall i :: 0 <= i < |items| ==> NoNullField(items[i])
    case _ => true
  }

  /** No dictionary value is null at any depth. */
  lemma {:induction false} CleanHasNoNullField(v: Value)
    ensures NoNullField(Clean(v))
    decreases v, 0
  {
    match v
    case Obj(fields) => FieldsHaveNoNull(fields);
    case Arr(items) => ItemsHaveNoNull(items);
    case _ =>
  }

  lemma {:induction false} FieldsHaveNoNull(fields: Fields)
    ensures NoNullField(Obj(CleanFields(fields)))
    decreases fields, 1
  {
    if fields != [] {
      FieldsHaveNoNull(fields[1..]);
      FieldHasNoNull(fields[0]);
    }
  }

  lemma {:induction false} FieldHasNoNull(f: (string, Value))
    ensures NoNullField(Clean(f.1))
    decreases f, 1
  {
    CleanHasNoNullField(f.1);
  }

  lemma {:induction false} ItemsHaveNoNull(items: seq<Value>)
    ensures NoNullField(Arr(CleanItems(items)))
    decreases items, 1
  {
    if items != [] {
      ItemsHaveNoNull(items[1..]);
      CleanHasNoNullField(items[0]);
    }
  }

  /** Cleaning a cleaned payload returns it unchanged, with the same masks. */
  lemma {:induction false} CleanIsIdempotent(v: Value, path: string, isWord: char -> bool)
    ensures Clean(Clean(v)) == Clean(v) && MasksOf(Clean(v), path, isWord) == MasksOf(v, path, isWord)
    decreases v, 0
  {
    match v
    case Obj(fields) => FieldsIdempotent(fields, path, isWord);
    case Arr(items) => ItemsIdempotent(items, 0, path, isWord);
    case _ =>
  }

  lemma {:induction false} FieldsIdempotent(fields: Fields, path: string, isWord: char -> bool)
    ensures CleanFields(CleanFields(fields)) == CleanFields(fields)
    ensures MasksOfFields(CleanFields(fields), path, isWord) == MasksOfFields(fields, path, isWord)
    decreases fields, 2
  {
    if fields != [] {
      FieldsIdempotent(fields[1..], path, isWord);
      if fields[0].1 != Null {
        FieldIdempotent(fields[0], path, isWord);
        assert CleanFields(fields)[1..] == CleanFields(fields[1..]);
      } else {
        assert CleanFields(fields) == CleanFields(fields[1..]);
      }
    }
  }

  lemma {:induction false} FieldIdempotent(f: (string, Value), path: string, isWord: char -> bool)
    requires f.1 != Null
    ensures CleanField(CleanField(f)) == CleanField(f) && CleanField(f).1 != Null
    ensures MasksOfField(CleanField(f), path, isWord) == MasksOfField(f, path, isWord)
    decreases f, 1
  {
    CleanIsIdempotent(f.1, ChildPath(path, f.0), isWord);
  }

  lemma {:induction false} ItemsIdempotent(items: seq<Value>, from: nat, path: string, isWord: char -> bool)
    ensures CleanItems(CleanItems(items)) == CleanItems(items)
    ensures MasksOfItems(CleanItems(items), from, path, isWord) == MasksOfItems(items, from, path, isWord)
    decreases items, 2
  {
    if items != [] {
      CleanIsIdempotent(items[0], ItemPath(path, from), isWord);
      ItemsIdempotent(items[1..], from + 1, path, isWord);
      assert CleanItems(items)[1..] == CleanItems(items[1..]);
    }
  }

  // ---------------------------------------------------------------- every other leaf is kept

  datatype Step = Key(name: string) | Index(i: nat)

  /** The value at a path; a missing key or index gives `None`. */
  function At(v: Value, path: seq<Step>): Option<Value>
    decreases |path|
  {
    if path == [] then Some(v)
    else match (path[0], v)
      case (Key(k), Obj(fields)) => if Has(fields, k) then At(Get(fields, k), path[1..]) else None
      case (Index(i), Arr(items)) => if i < |items| then At(items[i], path[1..]) else None
      case _ => None
  }

  /** Keys are distinct in every dictionary, as in any Python dict. */
  predicate WellFormed(v: Value)
    decreases v, 0
  {
    match v
    case Obj(fields) =>
      (forall i, j :: 0 <= i < j < |fields| ==> fields[i].0 != fields[j].0)
      && forall i :: 0 <= i < |fields| ==> WellFormed(fields[i].1)
    case Arr(items) => forall i :: 0 <= i < |items| ==> WellFormed(items[i])
    case _ => true
  }

  lemma {:induction false} CleanedFieldAt(fields: Fields, k: string)
    requires forall i, j :: 0 <= i < j < |fields| ==> fields[i].0 != fields[j].0
    ensures Has(CleanFields(fields), k) <==> Has(fields, k) && Get(fields, k) != Null
    ensures Has(CleanFields(fields), k) ==> Get(CleanFields(fields), k) == Clean(Get(fields, k))
  {
    if fields != [] {
      var f, rest := fields[0], fields[1..];
      assert forall i :: 0 <= i < |rest| ==> rest[i] == fields[i + 1];
      CleanedFieldAt(rest, k);
      HasCons(f, rest, k);
      assert [f] + rest == fields;
      if f.1 != Null {
        HasCons(CleanField(f), CleanFields(rest), k);
        assert CleanFields(fields)[1..] == CleanFields(rest);
      } else {
        assert CleanFields(fields) == CleanFields(rest);
        assert f.0 == k ==> !Has(rest, k);
      }
    }
  }

  lemma HasCons(f: (string, Value), rest: Fields, k: string)
    ensures Has([f] + rest, k) <==> f.0 == k || Has(rest, k)
    ensures Get([f] + rest, k) == if f.0 == k then f.1 else Get(rest, k)
  {
    assert ([f] + rest)[1..] == rest;
    if Has(rest, k) {
      var i :| 0 <= i < |rest| && rest[i].0 == k;
      assert ([f] + rest)[i + 1].0 == k;
    }
    if f.0 == k {
      assert ([f] + rest)[0].0 == k;
    }
  }

  lemma {:induction false} CleanedItemAt(items: seq<Value>, i: nat)
    requires i < |items|
    ensures CleanItems(items)[i] == Clean(items[i])
  {
    if i > 0 {
      CleanedItemAt(items[1..], i - 1);
    }
  }

  lemma {:induction false} GetIsField(fields: Fields, k: string)
    requires Has(fields, k)
    ensures exists i :: 0 <= i < |fields| && fields[i] == (k, Get(fields, k))
  {
    if fields[0].0 == k {
      assert fields[0] == (k, Get(fields, k));
    } else {
      assert [fields[0]] + fields[1..] == fields;
      HasCons(fields[0], fields[1..], k);
      GetIsField(fields[1..], k);
      var i :| 0 <= i < |fields[1..]| && fields[1..][i] == (k, Get(fields[1..], k));
      assert fields[i + 1] == (k, Get(fields, k));
    }
  }

  /** At every path the cleaned payload has the cleaned value, except that a null dictionary value
      is absent. So lists keep their length and positions, and every other leaf stays what it was. */
  lemma {:induction false} CleanKeepsTheRest(v: Value, path: seq<Step>)
    requires WellFormed(v)
    ensures At(Clean(v), path) ==
            match At(v, path)
            case None => None
            case Some(w) => if path != [] && path[|path| - 1].Key? && w == Null then None else Some(Clean(w))
    decreases |path|
  {
    if path != [] {
      match (path[0], v)
      case (Key(k), Obj(fields)) =>
        CleanedFieldAt(fields, k);
        if Has(fields, k) {
          GetIsField(fields, k);
          var i :| 0 <= i < |fields| && fields[i] == (k, Get(fields, k));
          CleanKeepsTheRest(Get(fields, k), path[1..]);
          if Get(fields, k) == Null && |path| > 1 {
            assert At(Null, path[1..]) == None;
          }
        }
      case (Index(i), Arr(items)) =>
        if i < |items| {
          CleanedItemAt(items, i);
          CleanKeepsTheRest(items[i], path[1..]);
        }
      case _ =>
    }
  }

  // ---------------------------------------------------------------- the masks are exactly the mask leaves

  function Render(path: string, steps: seq<Step>): string
    decreases |steps|
  {
    if steps == [] then path
    else match steps[0]
      case Key(k) => Render(ChildPath(path, k), steps[1..])
      case Index(i) => Render(ItemPath(path, i), steps[1..])
  }

  /** The steps lead to a string under a name/description/title/code key that has no word character. */
  ghost predicate LeadsToMask(v: Value, steps: seq<Step>, text: string, isWord: char -> bool) {
    steps != [] && steps[|steps| - 1].Key? && At(v, steps) == Some(Str(text))
    && MaskableKey(steps[|steps| - 1].name) && forall c :: c in text ==> !isWord(c)
  }

  /** A key that is one of four words, alone or after an underscore. */
  ghost predicate ReadsAs(key: string, stem: string, word: string) {
    && key == stem + word && (stem == "" || stem[|stem| - 1] == '_')
    && (word == "name" || word == "description" || word == "title" || word == "code")
  }

  lemma EndsInWordExactly(key: string, w: string)
    ensures EndsInWord(key, w) <==>
              |w| <= |key| && key == key[..|key| - |w|] + w && (|w| < |key| ==> key[|key| - |w| - 1] == '_')
  {
  }

  ghost predicate NamesText(key: string) { exists stem, word :: ReadsAs(key, stem, word) }

  lemma KeyReadsAs(key: string)
    ensures (exists w :: w in MASKABLE_WORDS && EndsInWord(key, w)) <==> NamesText(key)
  {
    forall w | w in MASKABLE_WORDS && EndsInWord(key, w) ensures ReadsAs(key, key[..|key| - |w|], w) {
      EndsInWordExactly(key, w);
    }
    if stem, word :| ReadsAs(key, stem, word) {
      WordIsMaskable(word);
      assert key[..|stem|] == stem;
      EndsInWordExactly(key, word);
    }
  }

  /** The keys whose strings are read as text; a final newline is let through. */
  lemma MaskableKeyExactly(key: string)
    ensures MaskableKey(key) <==>
              NamesText(key) || (key != "" && key[|key| - 1] == '\n' && NamesText(key[..|key| - 1]))
  {
    KeyReadsAs(key);
    if key != "" {
      KeyReadsAs(key[..|key| - 1]);
    }
  }

  lemma WordIsMaskable(word: string)
    requires word == "name" || word == "description" || word == "title" || word == "code"
    ensures word in MASKABLE_WORDS
  {
    assert MASKABLE_WORDS[0] == "name" && MASKABLE_WORDS[1] == "description" && MASKABLE_WORDS[2] == "title"
           && MASKABLE_WORDS[3] == "code";
  }

  lemma LeadsOn(v: Value, step: Step, steps: seq<Step>, text: string, isWord: char -> bool)
    requires steps != []
    ensures LeadsToMask(v, [step] + steps, text, isWord)
            <==> At(v, [step]).Some? && LeadsToMask(At(v, [step]).value, steps, text, isWord)
  {
    var all := [step] + steps;
    assert all[1..] == steps && [step][1..] == [] && all[|all| - 1] == steps[|steps| - 1];
  }

  /** The place of a step among the children of a node: a dictionary is walked in its own order. */
  function Rank(v: Value, step: Step): nat {
    match step
    case Key(k) => if v.Obj? then FieldIndex(v.fields, k) else 0
    case Index(i) => i
  }

  function FieldIndex(fields: Fields, k: string): nat {
    if fields == [] || fields[0].0 == k then 0 else 1 + FieldIndex(fields[1..], k)
  }

  /** The order in which a walk from `v` reaches two leaves. */
  predicate Before(v: Value, s: seq<Step>, t: seq<Step>)
    decreases |s|
  {
    s != [] && t != []
    && if s[0] == t[0] then At(v, [s[0]]).Some? && Before(At(v, [s[0]]).value, s[1..], t[1..])
       else Rank(v, s[0]) < Rank(v, t[0])
  }

  /** The n-th mask is a mask leaf, listed under its path, and the masks come in traversal order. */
  ghost predicate ListsInOrder(v: Value, path: string, masks: Masks, at: seq<seq<Step>>, isWord: char -> bool) {
    && |at| == |masks|
    && (forall n :: 0 <= n < |at| ==> LeadsToMask(v, at[n], masks[n].1, isWord) && Render(path, at[n]) == masks[n].0)
    && (forall m, n :: 0 <= m < n < |at| ==> Before(v, at[m], at[n]))
  }

  /** Every mask leaf below the children from `lo` up to `hi` is at one of the places, and no other is. */
  ghost predicate Covers(v: Value, lo: nat, hi: nat, at: seq<seq<Step>>, isWord: char -> bool) {
    && (forall n :: 0 <= n < |at| ==> at[n] != [] && lo <= Rank(v, at[n][0]) < hi)
    && (forall steps: seq<Step>, text ::
          LeadsToMask(v, steps, text, isWord) && lo <= Rank(v, steps[0]) < hi ==> steps in at)
  }

  lemma AcrossChildren(v: Value, s: seq<Step>, t: seq<Step>)
    requires s != [] && t != [] && Rank(v, s[0]) < Rank(v, t[0])
    ensures Before(v, s, t)
  {
  }

  lemma {:induction false} OrderConcatenated(v: Value, path: string, mid: nat, a: Masks, atA: seq<seq<Step>>,
                          b: Masks, atB: seq<seq<Step>>, isWord: char -> bool)
    requires ListsInOrder(v, path, a, atA, isWord) && forall n :: 0 <= n < |atA| ==> Rank(v, atA[n][0]) < mid
    requires ListsInOrder(v, path, b, atB, isWord) && forall n :: 0 <= n < |atB| ==> mid <= Rank(v, atB[n][0])
    ensures ListsInOrder(v, path, a + b, atA + atB, isWord)
  {
    var at, masks := atA + atB, a + b;
    forall n | 0 <= n < |at|
      ensures LeadsToMask(v, at[n], masks[n].1, isWord) && Render(path, at[n]) == masks[n].0
    {
      var steps, mask := at[n], masks[n];
      if n < |atA| {
        assert steps == atA[n] && mask == a[n];
      } else {
        assert steps == atB[n - |atA|] && mask == b[n - |atA|];
      }
      assert LeadsToMask(v, steps, mask.1, isWord) && Render(path, steps) == mask.0;
    }
    forall m, n | 0 <= m < n < |at| ensures Before(v, at[m], at[n]) {
      BeforeConcatenated(v, atA, atB, m, n, mid);
    }
  }

  lemma {:induction false} BeforeConcatenated(v: Value, atA: seq<seq<Step>>, atB: seq<seq<Step>>, m: nat, n: nat,
                                              mid: nat)
    requires m < n < |atA + atB|
    requires n < |atA| ==> Before(v, atA[m], atA[n])
    requires |atA| <= m ==> Before(v, atB[m - |atA|], atB[n - |atA|])
    requires m < |atA| ==> atA[m] != [] && Rank(v, atA[m][0]) < mid
    requires |atA| <= n ==> atB[n - |atA|] != [] && mid <= Rank(v, atB[n - |atA|][0])
    ensures Before(v, (atA + atB)[m], (atA + atB)[n])
  {
    if m < |atA| <= n {
      AcrossChildren(v, atA[m], atB[n - |atA|]);
    }
  }

  lemma CoverConcatenated(v: Value, lo: nat, mid: nat, hi: nat, atA: seq<seq<Step>>, atB: seq<seq<Step>>,
                          isWord: char -> bool)
    requires lo <= mid <= hi && Covers(v, lo, mid, atA, isWord) && Covers(v, mid, hi, atB, isWord)
    ensures Covers(v, lo, hi, atA + atB, isWord)
  {
    forall steps: seq<Step>, text | LeadsToMask(v, steps, text, isWord) && lo <= Rank(v, steps[0]) < hi
      ensures steps in atA + atB
    {
      assert steps in atA || steps in atB;
    }
  }

  function Prefixed(step: Step, at: seq<seq<Step>>): (r: seq<seq<Step>>)
    ensures |r| == |at| && forall n :: 0 <= n < |r| ==> r[n] == [step] + at[n]
  {
    seq(|at|, n requires 0 <= n < |at| => [step] + at[n])
  }

  /** What is listed of a child is listed of its parent, one step further down. */
  lemma Lifted(v: Value, step: Step, path: string, masks: Masks, at: seq<seq<Step>>, isWord: char -> bool)
    requires At(v, [step]).Some?
    requires ListsInOrder(At(v, [step]).value, Render(path, [step]), masks, at, isWord)
    ensures ListsInOrder(v, path, masks, Prefixed(step, at), isWord)
  {
    var w, all := At(v, [step]).value, Prefixed(step, at);
    forall n | 0 <= n < |all|
      ensures LeadsToMask(v, all[n], masks[n].1, isWord) && Render(path, all[n]) == masks[n].0
    {
      LeadsOn(v, step, at[n], masks[n].1, isWord);
      RenderCons(path, step, at[n]);
    }
    forall m, n | 0 <= m < n < |all| ensures Before(v, all[m], all[n]) {
      assert all[m][1..] == at[m] && all[n][1..] == at[n];
      assert Before(w, at[m], at[n]);
    }
  }

  lemma AtCons(v: Value, step: Step, rest: seq<Step>)
    ensures At(v, [step] + rest) == if At(v, [step]).Some? then At(At(v, [step]).value, rest) else None
  {
    assert ([step] + rest)[1..] == rest && [step][1..] == [];
  }

  /** A way to a mask leaf ends at the first string it meets. */
  lemma LeafStops(v: Value, steps: seq<Step>, text: string, isWord: char -> bool)
    requires steps != []
    ensures LeadsToMask(v, steps, text, isWord) ==> At(v, [steps[0]]).Some?
    ensures LeadsToMask(v, steps, text, isWord) && At(v, [steps[0]]).value.Str? ==>
              steps == [steps[0]] && steps[0].Key?
  {
    AtCons(v, steps[0], steps[1..]);
    assert [steps[0]] + steps[1..] == steps;
    if steps[1..] == [] {
      assert steps == [steps[0]];
    }
  }

  lemma OneStep(v: Value, step: Step, path: string)
    ensures step.Key? && v.Obj? && Has(v.fields, step.name) ==> At(v, [step]) == Some(Get(v.fields, step.name))
    ensures step.Index? && v.Arr? && step.i < |v.items| ==> At(v, [step]) == Some(v.items[step.i])
    ensures Render(path, [step]) == if step.Key? then ChildPath(path, step.name) else ItemPath(path, step.i)
  {
    assert [step][1..] == [];
  }

  lemma RenderCons(path: string, step: Step, rest: seq<Step>)
    ensures Render(path, [step] + rest) == Render(Render(path, [step]), rest)
  {
    assert ([step] + rest)[1..] == rest && [step][1..] == [];
  }

  /** The leaves below one child are those of the child. */
  lemma ChildCovered(v: Value, step: Step, at: seq<seq<Step>>, isWord: char -> bool)
    requires At(v, [step]).Some? && !At(v, [step]).value.Str?
    requires forall steps: seq<Step>, text :: LeadsToMask(At(v, [step]).value, steps, text, isWord) ==> steps in at
    requires forall s: Step :: At(v, [s]).Some? && Rank(v, s) == Rank(v, step) ==> s == step
    ensures Covers(v, Rank(v, step), Rank(v, step) + 1, Prefixed(step, at), isWord)
  {
    forall steps: seq<Step>, text | LeadsToMask(v, steps, text, isWord) && Rank(v, steps[0]) == Rank(v, step)
      ensures steps in Prefixed(step, at)
    {
      LeafStops(v, steps, text, isWord);
      LeafBelow(v, step, steps, text, isWord);
      InPrefixed(step, at, steps[1..]);
    }
  }

  lemma LeafBelow(v: Value, step: Step, steps: seq<Step>, text: string, isWord: char -> bool)
    requires steps != [] && steps[0] == step && At(v, [step]).Some? && !At(v, [step]).value.Str?
    ensures LeadsToMask(v, steps, text, isWord) ==> LeadsToMask(At(v, [step]).value, steps[1..], text, isWord)
    ensures steps == [step] + steps[1..]
  {
    assert steps == [step] + steps[1..];
    if steps[1..] != [] {
      LeadsOn(v, step, steps[1..], text, isWord);
    }
  }

  lemma InPrefixed(step: Step, at: seq<seq<Step>>, rest: seq<Step>)
    requires rest in at
    ensures [step] + rest in Prefixed(step, at)
  {
    var n :| 0 <= n < |at| && at[n] == rest;
    assert Prefixed(step, at)[n] == [step] + rest;
  }

  lemma {:induction false} FieldIndexIs(fields: Fields, i: nat)
    requires i < |fields| && forall a, b :: 0 <= a < b < |fields| ==> fields[a].0 != fields[b].0
    ensures FieldIndex(fields, fields[i].0) == i
  {
    if i > 0 {
      FieldIndexIs(fields[1..], i - 1);
    }
  }

  lemma KeyByRank(v: Value, i: nat, s: Step)
    requires WellFormed(v) && v.Obj? && i < |v.fields| && At(v, [s]).Some? && Rank(v, s) == i
    ensures s == Key(v.fields[i].0)
  {
    GetIsField(v.fields, s.name);
    var j :| 0 <= j < |v.fields| && v.fields[j] == (s.name, Get(v.fields, s.name));
    FieldIndexIs(v.fields, j);
  }

  lemma GetAt(fields: Fields, i: nat)
    requires i < |fields| && forall a, b :: 0 <= a < b < |fields| ==> fields[a].0 != fields[b].0
    ensures Has(fields, fields[i].0) && Get(fields, fields[i].0) == fields[i].1
  {
    GetIsField(fields, fields[i].0);
  }

  lemma {:induction false} NeverBeforeItself(v: Value, s: seq<Step>)
    ensures !Before(v, s, s)
    decreases |s|
  {
    if s != [] && At(v, [s[0]]).Some? {
      NeverBeforeItself(At(v, [s[0]]).value, s[1..]);
    }
  }

  /** What is listed in order is listed once. */
  lemma EachMaskOnce(v: Value, path: string, masks: Masks, at: seq<seq<Step>>, isWord: char -> bool)
    requires ListsInOrder(v, path, masks, at, isWord)
    ensures Distinct(at)
  {
    forall m, n | 0 <= m < n < |at| ensures at[m] != at[n] {
      NeverBeforeItself(v, at[m]);
    }
  }

  /** The places of the masks below the children from `lo` up to `hi`. */
  ghost predicate Places(v: Value, lo: nat, hi: nat, path: string, masks: Masks, at: seq<seq<Step>>,
                         isWord: char -> bool)
  {
    ListsInOrder(v, path, masks, at, isWord) && Covers(v, lo, hi, at, isWord)
  }

  ghost predicate PlacesOfChild(v: Value, i: nat, path: string, masks: Masks, at: seq<seq<Step>>,
                                isWord: char -> bool)
  {
    Places(v, i, i + 1, path, masks, at, isWord)
  }

  /** The masks are the mask leaves, at these places and no others: each under its path, in traversal order. */
  ghost predicate AreTheLeaves(v: Value, path: string, masks: Masks, at: seq<seq<Step>>, isWord: char -> bool) {
    && ListsInOrder(v, path, masks, at, isWord)
    && forall steps: seq<Step>, text :: LeadsToMask(v, steps, text, isWord) ==> steps in at
  }

  /** The mask list is the mask leaves, no more and no less. */
  lemma {:induction false} MasksAreTheLeaves(v: Value, path: string, isWord: char -> bool)
    requires WellFormed(v)
    ensures exists at :: AreTheLeaves(v, path, MasksOf(v, path, isWord), at, isWord)
    decreases v, 0
  {
    match v
    case Obj(fields) =>
      FieldMasks(v, 0, path, isWord);
      assert fields[0..] == fields;
      var at :| Places(v, 0, |fields|, path, MasksOfFields(fields[0..], path, isWord), at, isWord);
      forall steps: seq<Step>, text | LeadsToMask(v, steps, text, isWord) ensures steps in at {
        assert Rank(v, steps[0]) < |fields| by {
          GetIsField(fields, steps[0].name);
          var i :| 0 <= i < |fields| && fields[i] == (steps[0].name, Get(fields, steps[0].name));
          FieldIndexIs(fields, i);
        }
      }
      assert AreTheLeaves(v, path, MasksOf(v, path, isWord), at, isWord);
    case Arr(items) =>
      ItemMasks(v, 0, path, isWord);
      assert items[0..] == items;
      var at :| Places(v, 0, |items|, path, MasksOfItems(items[0..], 0, path, isWord), at, isWord);
      assert AreTheLeaves(v, path, MasksOf(v, path, isWord), at, isWord);
    case _ =>
      assert forall steps: seq<Step> :: steps != [] ==> At(v, steps) == None;
      assert AreTheLeaves(v, path, MasksOf(v, path, isWord), [], isWord);
  }

  lemma {:induction false} FieldMasks(v: Value, from: nat, path: string, isWord: char -> bool)
    requires WellFormed(v) && v.Obj? && from <= |v.fields|
    ensures exists at :: Places(v, from, |v.fields|, path, MasksOfFields(v.fields[from..], path, isWord), at, isWord)
    decreases v, 0, |v.fields| - from
  {
    if from == |v.fields| {
      assert v.fields[from..] == [] && MasksOfFields([], path, isWord) == [];
      assert Places(v, from, |v.fields|, path, [], [], isWord);
    } else {
      OneFieldMasks(v, from, path, isWord);
      FieldMasks(v, from + 1, path, isWord);
      var first := MasksOfField(v.fields[from], path, isWord);
      var others := MasksOfFields(v.fields[from + 1..], path, isWord);
      var here :| PlacesOfChild(v, from, path, first, here, isWord);
      var rest :| Places(v, from + 1, |v.fields|, path, others, rest, isWord);
      assert v.fields[from..][1..] == v.fields[from + 1..];
      assert MasksOfFields(v.fields[from..], path, isWord) == first + others;
      OrderConcatenated(v, path, from + 1, first, here, others, rest, isWord);
      CoverConcatenated(v, from, from + 1, |v.fields|, here, rest, isWord);
      assert Places(v, from, |v.fields|, path, first + others, here + rest, isWord);
    }
  }

  /** A string under a key is a mask leaf or holds none. */
  lemma StringFieldMasks(v: Value, i: nat, path: string, isWord: char -> bool)
    requires WellFormed(v) && v.Obj? && i < |v.fields| && v.fields[i].1.Str?
    ensures exists at :: PlacesOfChild(v, i, path, MasksOfField(v.fields[i], path, isWord), at, isWord)
  {
    var f := v.fields[i];
    GetAt(v.fields, i);
    FieldIndexIs(v.fields, i);
    OneStep(v, Key(f.0), path);
    var at := if IsMaskLeaf(f.0, f.1, isWord) then [[Key(f.0)]] else [];
    forall steps: seq<Step>, text | LeadsToMask(v, steps, text, isWord) && Rank(v, steps[0]) == i ensures steps in at {
      LeafStops(v, steps, text, isWord);
      KeyByRank(v, i, steps[0]);
    }
    assert PlacesOfChild(v, i, path, MasksOfField(f, path, isWord), at, isWord);
  }

  lemma {:induction false} OneFieldMasks(v: Value, i: nat, path: string, isWord: char -> bool)
    requires WellFormed(v) && v.Obj? && i < |v.fields|
    ensures exists at :: PlacesOfChild(v, i, path, MasksOfField(v.fields[i], path, isWord), at, isWord)
    decreases v, 0, 0
  {
    var f := v.fields[i];
    if f.1.Str? {
      StringFieldMasks(v, i, path, isWord);
    } else {
      var child := ChildPath(path, f.0);
      MasksAreTheLeaves(f.1, child, isWord);
      var below :| AreTheLeaves(f.1, child, MasksOf(f.1, child, isWord), below, isWord);
      FieldListed(v, i, path, below, isWord);
      FieldCovered(v, i, below, isWord);
      assert PlacesOfChild(v, i, path, MasksOfField(f, path, isWord), Prefixed(Key(f.0), below), isWord);
    }
  }

  lemma {:induction false} FieldListed(v: Value, i: nat, path: string, below: seq<seq<Step>>, isWord: char -> bool)
    requires WellFormed(v) && v.Obj? && i < |v.fields| && !v.fields[i].1.Str?
    requires var (key, w) := v.fields[i];
             ListsInOrder(w, ChildPath(path, key), MasksOf(w, ChildPath(path, key), isWord), below, isWord)
    ensures ListsInOrder(v, path, MasksOfField(v.fields[i], path, isWord), Prefixed(Key(v.fields[i].0), below), isWord)
  {
    var step := Key(v.fields[i].0);
    GetAt(v.fields, i);
    OneStep(v, step, path);
    Lifted(v, step, path, MasksOfField(v.fields[i], path, isWord), below, isWord);
  }

  lemma {:induction false} FieldCovered(v: Value, i: nat, below: seq<seq<Step>>, isWord: char -> bool)
    requires WellFormed(v) && v.Obj? && i < |v.fields| && !v.fields[i].1.Str?
    requires forall steps: seq<Step>, text :: LeadsToMask(v.fields[i].1, steps, text, isWord) ==> steps in below
    ensures Covers(v, i, i + 1, Prefixed(Key(v.fields[i].0), below), isWord)
  {
    var step := Key(v.fields[i].0);
    GetAt(v.fields, i);
    FieldIndexIs(v.fields, i);
    OneStep(v, step, "");
    forall s: Step | At(v, [s]).Some? && Rank(v, s) == i ensures s == step { KeyByRank(v, i, s); }
    ChildCovered(v, step, below, isWord);
  }

  lemma {:induction false} ItemMasks(v: Value, from: nat, path: string, isWord: char -> bool)
    requires WellFormed(v) && v.Arr? && from <= |v.items|
    ensures exists at ::
              Places(v, from, |v.items|, path, MasksOfItems(v.items[from..], from, path, isWord), at, isWord)
    decreases v, 0, |v.items| - from
  {
    if from == |v.items| {
      assert v.items[from..] == [] && MasksOfItems([], from, path, isWord) == [];
      assert Places(v, from, |v.items|, path, [], [], isWord);
    } else {
      OneItemMasks(v, from, path, isWord);
      ItemMasks(v, from + 1, path, isWord);
      var first := MasksOf(v.items[from], ItemPath(path, from), isWord);
      var others := MasksOfItems(v.items[from + 1..], from + 1, path, isWord);
      var here :| PlacesOfChild(v, from, path, first, here, isWord);
      var rest :| Places(v, from + 1, |v.items|, path, others, rest, isWord);
      assert v.items[from..][1..] == v.items[from + 1..];
      assert MasksOfItems(v.items[from..], from, path, isWord) == first + others;
      OrderConcatenated(v, path, from + 1, first, here, others, rest, isWord);
      CoverConcatenated(v, from, from + 1, |v.items|, here, rest, isWord);
      assert Places(v, from, |v.items|, path, first + others, here + rest, isWord);
    }
  }

  lemma {:induction false} OneItemMasks(v: Value, i: nat, path: string, isWord: char -> bool)
    requires WellFormed(v) && v.Arr? && i < |v.items|
    ensures exists at :: PlacesOfChild(v, i, path, MasksOf(v.items[i], ItemPath(path, i), isWord), at, isWord)
    decreases v, 0, 0
  {
    var w, step, child := v.items[i], Index(i), ItemPath(path, i);
    OneStep(v, step, path);
    MasksAreTheLeaves(w, child, isWord);
    var below :| AreTheLeaves(w, child, MasksOf(w, child, isWord), below, isWord);
    Lifted(v, step, path, MasksOf(w, child, isWord), below, isWord);
    if w.Str? {
      forall steps: seq<Step>, text | LeadsToMask(v, steps, text, isWord) ensures Rank(v, steps[0]) != i {
        LeafStops(v, steps, text, isWord);
      }
    } else {
      ChildCovered(v, step, below, isWord);
    }
    assert PlacesOfChild(v, i, path, MasksOf(w, child, isWord), Prefixed(step, below), isWord);
  }
}
