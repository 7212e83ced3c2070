/**
 * The language drop-down: a fixed allow-list of five codes, the merge of the
 * server's code-to-label map onto it, and the option list it renders.
 */
module LanguageSelector {
  import opened Wrappers

  /** A language code with its display label. */
  datatype Entry = Entry(code: string, caption: string)

  /** The allow-list, in the order its keys are declared (which is the order JavaScript enumerates them). */
  const Allowed: seq<Entry> := [
    Entry("en-US", "English"),
    Entry("kn-IN", "Kannada"),
    Entry("hi-IN", "Hindi"),
    Entry("ta-IN", "Tamil"),
    Entry("te-IN", "Telugu")
  ]

  /** The codes of `entries`, in order. */
  function Codes(entries: seq<Entry>): (r: seq<string>)
    ensures |r| == |entries|
    ensures forall i :: 0 <= i < |entries| ==> r[i] == entries[i].code
  {
    seq(|entries|, i requires 0 <= i < |entries| => entries[i].code)
  }

  /** The five allowed codes are pairwise distinct. */
  lemma AllowedCodesDistinct()
    ensures Codes(Allowed) == ["en-US", "kn-IN", "hi-IN", "ta-IN", "te-IN"]
    ensures forall i, j :: 0 <= i < j < |Allowed| ==> Allowed[i].code != Allowed[j].code
  {
  }

  /** The caption of an allowed entry: the server's caption when it is truthy, else the built-in one. */
  function CaptionFor(incoming: map<string, string>, e: Entry): string {
    if e.code in incoming && incoming[e.code] != "" then incoming[e.code] else e.caption
  }

  /** The dictionary the effect builds from the server's map, entry by entry in allow-list order. */
  function Merged(incoming: map<string, string>): (r: seq<Entry>)
    ensures |r| == |Allowed|
    ensures forall i :: 0 <= i < |Allowed| ==> r[i].code == Allowed[i].code && r[i].caption != ""
  {
    seq(|Allowed|, i requires 0 <= i < |Allowed| => Entry(Allowed[i].code, CaptionFor(incoming, Allowed[i])))
  }

  /** The `forEach` loop over the allow-list that fills `filtered`. */
  method MergeWithAllowList(incoming: map<string, string>) returns (filtered: seq<Entry>)
    ensures filtered == Merged(incoming)
  {
    filtered := [];
    var i := 0;
    while i < |Allowed|
      invariant 0 <= i <= |Allowed|
      invariant filtered == Merged(incoming)[..i]
    {
      var code := Allowed[i].code;
      if code in incoming && incoming[code] != "" {
        filtered := filtered + [Entry(code, incoming[code])];
      } else {
        filtered := filtered + [Entry(code, Allowed[i].caption)];
      }
      i := i + 1;
    }
  }

  /**
   * After a merge there are exactly the five allowed codes, in allow-list
   * order; codes the server adds are dropped; each caption follows the server
   * when truthy; an empty server map gives the built-in labels.
   */
  lemma MergedShape(incoming: map<string, string>)
    ensures Codes(Merged(incoming)) == Codes(Allowed)
    ensures forall i :: 0 <= i < |Allowed| ==>
      Merged(incoming)[i].caption == (if Allowed[i].code in incoming && incoming[Allowed[i].code] != ""
                                    then incoming[Allowed[i].code] else Allowed[i].caption)
    ensures forall code :: code in incoming && code !in Codes(Allowed) ==> code !in Codes(Merged(incoming))
    ensures Merged(map[]) == Allowed
  {
  }

  /** One `<option>`: its value and its visible text. */
  datatype OptionItem = OptionItem(value: string, text: string)

  /** `<option value={code}>{caption} ({code})</option>` for every entry, in order. */
  function RenderEntries(entries: seq<Entry>): (r: seq<OptionItem>)
    ensures |r| == |entries|
    ensures forall i :: 0 <= i < |entries| ==>
      r[i].value == entries[i].code && r[i].text == entries[i].caption + " (" + entries[i].code + ")"
  {
    seq(|entries|, i requires 0 <= i < |entries| =>
      OptionItem(entries[i].code, entries[i].caption + " (" + entries[i].code + ")"))
  }

  /** The two option blocks of the `<select>`: the built-in list while `langs` is empty, then `langs`. */
  function Options(langs: seq<Entry>): (r: seq<OptionItem>)
    ensures r == RenderEntries(if langs == [] then Allowed else langs)
  {
    assert langs == [] ==> RenderEntries(Allowed) + [] == RenderEntries(Allowed);
    assert langs != [] ==> [] + RenderEntries(langs) == RenderEntries(langs);
    (if |langs| == 0 then RenderEntries(Allowed) else []) + RenderEntries(langs)
  }

  /** The state before any fetch, or after one: empty, or the five allowed codes in order. */
  predicate WellFormed(langs: seq<Entry>) {
    langs == [] || Codes(langs) == Codes(Allowed)
  }

  /**
   * Exactly one of the two blocks is non-empty, so exactly five options
   * render, one per allowed code in allow-list order, none twice.
   */
  lemma {:induction false} FiveOptions(langs: seq<Entry>)
    requires WellFormed(langs)
    ensures Options(langs) == RenderEntries(if langs == [] then Allowed else langs)
    ensures |Options(langs)| == 5
    ensures forall i :: 0 <= i < 5 ==> Options(langs)[i].value == Allowed[i].code
    ensures forall i, j :: 0 <= i < j < 5 ==> Options(langs)[i].value != Options(langs)[j].value
  {
    if langs == [] {
      assert Options(langs) == RenderEntries(Allowed) + [];
    } else {
      assert Options(langs) == [] + RenderEntries(langs);
      assert |langs| == |Codes(langs)| == 5;
      forall i | 0 <= i < 5 ensures Options(langs)[i].value == Allowed[i].code {
        assert Options(langs)[i].value == langs[i].code == Codes(langs)[i];
      }
    }
    AllowedCodesDistinct();
  }

  /** A selected value outside the allow-list, such as `fr-FR`, adds no option of its own. */
  lemma UnknownValueAddsNoOption(langs: seq<Entry>, value: string)
    requires WellFormed(langs)
    requires value !in Codes(Allowed)
    ensures forall o :: o in Options(langs) ==> o.value != value
  {
    FiveOptions(langs);
    var opts := Options(langs);
    forall i | 0 <= i < |opts| ensures opts[i].value != value {
      assert opts[i].value == Allowed[i].code == Codes(Allowed)[i];
    }
  }

  /** The component's `langs` state. */
  class Selector {
    var langs: seq<Entry>

    ghost predicate Valid()
      reads this
    {
      WellFormed(langs)
    }

    constructor ()
      ensures Valid() && langs == []
    {
      langs := [];
    }

    /**
     * The effect's callback. `response` is the reply's `languages` map, or
     * `None` for a reply without one; then nothing changes. The client turns
     * a failed request into a reply with an empty map, which the merge turns
     * into the built-in list.
     */
    method Fetched(response: Option<map<string, string>>)
      requires Valid()
      modifies this
      ensures Valid()
      ensures langs == if response.Some? then Merged(response.value) else old(langs)
    {
      if response.Some? {
        langs := MergeWithAllowList(response.value);
        MergedShape(response.value);
      }
    }

    /** The options currently rendered. */
    function Rendered(): (r: seq<OptionItem>)
      reads this
      requires Valid()
      ensures |r| == 5 && forall i :: 0 <= i < 5 ==> r[i].value == Allowed[i].code
    {
      FiveOptions(langs);
      Options(langs)
    }
  }
}
