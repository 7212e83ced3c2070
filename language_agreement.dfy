/**
 * The backend's supported-languages table and the frontend's allow-list
 * name the same five languages, so the merge the language selector performs
 * on the backend's reply reproduces the allow-list exactly.
 */
module LanguageAgreement {
  import Backend
  import LanguageSelector

  /** No code occurs twice in `table`. */
  predicate DistinctCodes(table: seq<(string, string)>) {
    forall i, j :: 0 <= i < j < |table| ==> table[i].0 != table[j].0
  }

  /** A JSON object with distinct keys decoded into a dictionary. */
  function TableAsMap(table: seq<(string, string)>): (m: map<string, string>)
    requires DistinctCodes(table)
    ensures forall i :: 0 <= i < |table| ==> table[i].0 in m && m[table[i].0] == table[i].1
    ensures forall k :: k in m ==> exists i :: 0 <= i < |table| && table[i].0 == k
  {
    map i | 0 <= i < |table| :: table[i].0 := table[i].1
  }

  /** The table the endpoint's body carries lists the allow-list's codes and labels, entry by entry. */
  lemma TableMatchesAllowList()
    ensures |Backend.SupportedLanguages().body.languages| == |LanguageSelector.Allowed|
    ensures forall i :: 0 <= i < |LanguageSelector.Allowed| ==>
      Backend.SupportedLanguages().body.languages[i] == (LanguageSelector.Allowed[i].code, LanguageSelector.Allowed[i].caption)
  {
  }

  /**
   * The endpoint's codes are distinct, and merging its reply onto the
   * allow-list gives the allow-list back, labels included.
   */
  lemma BackendTableIsAllowList()
    ensures DistinctCodes(Backend.SupportedLanguages().body.languages)
    ensures LanguageSelector.Merged(TableAsMap(Backend.SupportedLanguages().body.languages)) == LanguageSelector.Allowed
  {
    TableMatchesAllowList();
    LanguageSelector.AllowedCodesDistinct();
    var t := Backend.SupportedLanguages().body.languages;
    assert DistinctCodes(t);
    var m := TableAsMap(t);
    var merged := LanguageSelector.Merged(m);
    forall i | 0 <= i < 5 ensures merged[i] == LanguageSelector.Allowed[i] {
      assert t[i].0 in m && m[t[i].0] == t[i].1;
      assert t[i].1 != "";
    }
  }
}
