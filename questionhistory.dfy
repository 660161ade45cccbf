/** The sidebar list of past questions
    (frontend/src/components/QuestionHistory.jsx). */
module QuestionHistory {
  import opened Domain
  import Helpers

  /** The length at which a question is cut in the list. */
  const PreviewLength: nat := 100

  /** One row: the shortened question, its age, and what clicking it
      hands to the page (the full question). */
  datatype EntryView = EntryView(preview: string, age: Helpers.RelativeTime, onClick: string)

  datatype HistoryView = NoQuestionsYet | Entries(rows: seq<EntryView>)

  function EntryOf(item: HistoryEntry, now: int): EntryView {
    EntryView(Helpers.Truncate(item.question, PreviewLength),
              Helpers.FormatTimestamp(now - item.timestamp),
              item.question)
  }

  /** The list at time `now` (milliseconds). */
  function RenderHistory(history: seq<HistoryEntry>, now: int): HistoryView {
    if |history| == 0 then NoQuestionsYet
    else Entries(seq(|history|, i requires 0 <= i < |history| => EntryOf(history[i], now)))
  }

  /** The placeholder appears exactly when there is no history; otherwise
      there is one row per entry, in the same order, whose preview is the
      question when it has at most 100 characters and otherwise its first
      100 followed by "...", and whose click hands over the whole question. */
  lemma RenderHistorySpec(history: seq<HistoryEntry>, now: int)
    ensures RenderHistory(history, now).NoQuestionsYet? <==> |history| == 0
    ensures RenderHistory(history, now).Entries? ==>
      |RenderHistory(history, now).rows| == |history|
    ensures RenderHistory(history, now).Entries? ==>
      forall i :: 0 <= i < |history| ==>
        var row := RenderHistory(history, now).rows[i];
        row.onClick == history[i].question
        && |row.preview| <= PreviewLength + 3
        && (|history[i].question| <= PreviewLength ==> row.preview == history[i].question)
        && (|history[i].question| > PreviewLength ==>
              row.preview == history[i].question[..PreviewLength] + "...")
        && row.age == Helpers.FormatTimestamp(now - history[i].timestamp)
  {
    if |history| > 0 {
      forall i | 0 <= i < |history|
        ensures var row := RenderHistory(history, now).rows[i];
          |row.preview| <= PreviewLength + 3
          && (|history[i].question| <= PreviewLength ==> row.preview == history[i].question)
          && (|history[i].question| > PreviewLength ==>
                row.preview == history[i].question[..PreviewLength] + "...")
      {
        Helpers.TruncateSpec(history[i].question, PreviewLength);
      }
    }
  }
}
