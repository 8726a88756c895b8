/** `strip_unique`, the helper of tests/test_credential_attachments.py that
    removes the per-run identifiers from a list of attachment dicts before
    two lists are compared. */
module StripUnique {
  import opened Json

  const Blocklist: seq<string> := ["lastmod_time", "@id", "id", "ref"]

  /** One dict without its blocklisted keys. */
  function Stripped(obj: map<string, Json>): (r: map<string, Json>)
    ensures forall k :: k in r <==> k in obj && k !in Blocklist
    ensures forall k :: k in r ==> r[k] == obj[k]
  {
    map k | k in obj && k !in Blocklist :: obj[k]
  }

  /** The whole list, dict by dict. */
  function StrippedAll(list: seq<map<string, Json>>): (r: seq<map<string, Json>>)
    ensures |r| == |list|
    ensures forall i :: 0 <= i < |list| ==> r[i] == Stripped(list[i])
  {
    seq(|list|, i requires 0 <= i < |list| => Stripped(list[i]))
  }

  /** The two loops of `strip_unique`: every dict is rebuilt key by key,
      skipping the blocklisted ones, and appended in order. */
  method Strip(list: seq<map<string, Json>>) returns (newList: seq<map<string, Json>>)
    ensures newList == StrippedAll(list)
  {
    newList := [];
    for i := 0 to |list|
      invariant |newList| == i
      invariant forall j :: 0 <= j < i ==> newList[j] == Stripped(list[j])
    {
      var obj := list[i];
      var newObj: map<string, Json> := map[];
      var keys := obj.Keys;
      while keys != {}
        invariant keys <= obj.Keys
        invariant newObj == map k | k in obj && k !in keys && k !in Blocklist :: obj[k]
        decreases keys
      {
        var key :| key in keys;
        if key !in Blocklist {
          newObj := newObj[key := obj[key]];
        }
        keys := keys - {key};
      }
      newList := newList + [newObj];
    }
  }

  /** No output dict has a blocklisted key, every other key keeps its
      value, and the list keeps its length and order. */
  lemma StripMeaning(list: seq<map<string, Json>>, i: int, key: string)
    requires 0 <= i < |list|
    ensures |StrippedAll(list)| == |list|
    ensures key in Blocklist ==> key !in StrippedAll(list)[i]
    ensures key !in Blocklist && key in list[i] ==> key in StrippedAll(list)[i] && StrippedAll(list)[i][key] == list[i][key]
  {
  }

  /** Stripping twice is stripping once. */
  lemma StripIdempotent(list: seq<map<string, Json>>)
    ensures StrippedAll(StrippedAll(list)) == StrippedAll(list)
  {
    var once := StrippedAll(list);
    forall i | 0 <= i < |once| ensures Stripped(once[i]) == once[i] {
      assert Stripped(once[i]).Keys == once[i].Keys;
    }
  }
}
