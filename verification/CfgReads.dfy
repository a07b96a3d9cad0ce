// Reading keys of a section as texts, lists and words, and texts and items that can be put
// there.

module CfgReads {
  import opened Text
  import opened CfgSyntax
  import opened CfgRender
  import opened CfgDocument
  import opened CfgOps
  import opened Words

  function TextAt(lines: seq<string>, s: string, k: string): string {
    var r := Lookup(lines, s, k);
    if r.Some? then r.value else ""
  }

  function ListAt(lines: seq<string>, s: string, k: string): seq<string> { ListOf(TextAt(lines, s, k)) }

  // None when the key is absent, the empty list when it is there with nothing in it.
  function WordsAt(lines: seq<string>, s: string, k: string): Option<seq<string>> {
    var r := Lookup(lines, s, k);
    if r.Some? then Some(WordsOf(r.value)) else None
  }

  lemma PutText(key: string, text: string)
    requires CleanKey(key) && Clean(text)
    ensures CleanOp(Put(key, TextValue(text)))
  {
  }

  lemma PutItems(key: string, items: seq<string>)
    requires CleanKey(key) && CleanItems(items)
    ensures CleanOp(Put(key, Items(items)))
  {
    NonBlankClean(items);
  }

  lemma DropAny(key: string)
    ensures CleanOp(Drop(key))
  {
  }

  // A literal key with nothing in it that ends or hides a key.
  predicate Letter(c: char) { 'a' <= c <= 'z' || c == '_' }

  predicate Lettered(key: string) { key != "" && forall i | 0 <= i < |key| :: Letter(key[i]) }

  lemma LettersClean(key: string)
    requires Lettered(key)
    ensures CleanKey(key)
  {
    assert Letter(key[0]) && Letter(key[|key| - 1]);
    assert forall c | c in key :: Letter(c);
  }

  lemma TrimClean(t: string)
    requires Clean(t)
    ensures Trim(t) == t
  {
    if t != "" { assert t[0] in t && t[|t| - 1] in t; }
  }

  lemma CleanIsText(text: string)
    requires Clean(text)
    ensures TextOf(TextValue(text)) == text
  {
  }

  predicate Unlike(names: seq<string>) { forall i, j | 0 <= i < j < |names| :: names[i] != names[j] }
}
