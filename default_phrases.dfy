/** The built-in category and phrase table the board shows: two categories of six
    phrases each, every phrase naming a pre-recorded clip `<text>.mp3`. */
module DefaultPhrases {
  import opened Optional

  /** A speakable unit: the text shown on the button (and spoken by the speech
      fallback) and an optional clip file name. */
  datatype Phrase = Phrase(text: string, audioFile: Option<string>)

  /** A named group of phrases shown under one tab. `id` is used as a rendering
      key and inside element ids, so it has to be unique across the table. */
  datatype Category = Category(id: string, name: string, icon: Option<string>, phrases: seq<Phrase>)

  /** No two categories share an id. */
  predicate DistinctIds(cs: seq<Category>)
  {
    forall i, j :: 0 <= i < j < |cs| ==> cs[i].id != cs[j].id
  }

  /** No two phrases of one category share a text (the text is their rendering key). */
  predicate DistinctTexts(ps: seq<Phrase>)
  {
    forall i, j :: 0 <= i < j < |ps| ==> ps[i].text != ps[j].text
  }

  /** Every phrase names the clip called after its own text. */
  predicate ClipsNamedAfterText(ps: seq<Phrase>)
  {
    forall k :: 0 <= k < |ps| ==> ps[k].audioFile == Some(ps[k].text + ".mp3")
  }

  /** The static table, in display order. */
  function DefaultCategories(): (cs: seq<Category>)
    ensures |cs| == 2 && cs[0].id == "daily" && cs[1].id == "eating"
    ensures DistinctIds(cs)
    ensures forall i :: 0 <= i < |cs| ==> |cs[i].phrases| == 6
    ensures forall i :: 0 <= i < |cs| ==> DistinctTexts(cs[i].phrases)
    ensures forall i :: 0 <= i < |cs| ==> ClipsNamedAfterText(cs[i].phrases)
  {
    var cs :=
    [ Category("daily", "日常用語", Some("🏠"),
               [ Phrase("痛", Some("痛.mp3")),
                 Phrase("癢", Some("癢.mp3")),
                 Phrase("冷", Some("冷.mp3")),
                 Phrase("熱", Some("熱.mp3")),
                 Phrase("累", Some("累.mp3")),
                 Phrase("謝謝", Some("謝謝.mp3")) ]),
      Category("eating", "吃飯", Some("🍚"),
               [ Phrase("餓", Some("餓.mp3")),
                 Phrase("飽", Some("飽.mp3")),
                 Phrase("渴", Some("渴.mp3")),
                 Phrase("乖乖", Some("乖乖.mp3")),
                 Phrase("水果", Some("水果.mp3")),
                 Phrase("不要", Some("不要.mp3")) ]) ];
    assert forall i :: 0 <= i < |cs| ==> ClipsNamedAfterText(cs[i].phrases) by {
      forall i, k | 0 <= i < |cs| && 0 <= k < |cs[i].phrases|
        ensures cs[i].phrases[k].audioFile == Some(cs[i].phrases[k].text + ".mp3")
      {
        var t := cs[i].phrases[k].text;
        assert cs[i].phrases[k].audioFile.value == t + ".mp3";
      }
    }
    cs
  }
}
