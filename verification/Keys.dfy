/** How the name of a counter and the id of a replica are packed into one map key. */
module Keys {

  predicate ColonFree(s: string) {
    ':' !in s
  }

  predicate IsDefault(name: string) {
    name == "" || name == "default"
  }

  /** counterKey: the default counter uses the bare replica id, any other "<name>:<replica id>". */
  function CounterKey(name: string, node: string): string {
    if IsDefault(name) then node else name + ":" + node
  }

  predicate HasPrefix(s: string, p: string) {
    |p| <= |s| && s[..|p|] == p
  }

  /** keyBelongsTo. */
  predicate KeyBelongsTo(name: string, key: string) {
    if IsDefault(name) then ColonFree(key) || HasPrefix(key, "default:")
    else HasPrefix(key, name + ":")
  }

  function AfterLastColon(key: string): string {
    if ColonFree(key) then key else AfterLastColon(key[1..])
  }

  /** The replica whose contribution a key holds: the text after its last colon. */
  function Owner(key: string): string {
    AfterLastColon(key)
  }

  /** Two replicas never write the same key, whatever the counter name. */
  lemma OwnerOfKey(name: string, node: string)
    requires ColonFree(node)
    ensures Owner(CounterKey(name, node)) == node
  {
    if !IsDefault(name) {
      AfterColon(name, node);
    }
  }

  lemma {:induction false} AfterColon(name: string, node: string)
    requires ColonFree(node)
    ensures AfterLastColon(name + ":" + node) == node
  {
    var key := name + ":" + node;
    assert key[|name|] == ':';
    if name == "" {
      assert key[1..] == node;
    } else {
      assert key[1..] == name[1..] + ":" + node;
      AfterColon(name[1..], node);
    }
  }
}
