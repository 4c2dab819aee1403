/**
 * The second poll-creation page: the same option editor as the home page but
 * without a question type, and a `handleSubmit` that only logs the poll it
 * built and resets the form, with no request and no loading state.
 */
module CreatePage {
  import opened Wrappers
  import opened TimeSlots
  import opened PollEditor

  /** The poll `handleSubmit` logs; `endTime` holds the hours and minutes set on the end date, or None without one. */
  datatype PollDraft = PollDraft(question: string, options: seq<string>, endTime: Option<TimeParts>)

  class CreatePollForm {
    var question: string
    var options: seq<string>
    /** Whether an end date is picked; the date's value is not modelled. */
    var hasEndDate: bool
    var endTime: string

    ghost predicate Valid()
      reads this
    {
      InBounds(options) && IsSlot(endTime)
    }

    constructor ()
      ensures Valid()
      ensures question == "" && options == InitialOptions && hasEndDate && endTime == "12:00"
    {
      question := "";
      options := InitialOptions;
      hasEndDate := true;
      endTime := "12:00";
      NoonIsSlot();
    }

    method SetQuestion(text: string)
      requires Valid()
      modifies this
      ensures Valid()
      ensures question == text
      ensures options == old(options) && hasEndDate == old(hasEndDate) && endTime == old(endTime)
    {
      question := text;
    }

    /** Picking a date in the calendar or a quick duration, or clearing the calendar's selection. */
    method PickEndDate(present: bool)
      requires Valid()
      modifies this
      ensures Valid()
      ensures hasEndDate == present
      ensures question == old(question) && options == old(options) && endTime == old(endTime)
    {
      hasEndDate := present;
    }

    /** The time select offers only the generated half-hour labels. */
    method SetEndTime(t: string)
      requires Valid() && IsSlot(t)
      modifies this
      ensures Valid()
      ensures endTime == t
      ensures question == old(question) && options == old(options) && hasEndDate == old(hasEndDate)
    {
      endTime := t;
    }

    /** `addOption`: append a blank entry only below five entries, with no question-type condition. */
    method AddOption()
      requires Valid()
      modifies this
      ensures Valid()
      ensures options == AppendBlank(old(options))
      ensures question == old(question) && hasEndDate == old(hasEndDate) && endTime == old(endTime)
    {
      if |options| < MaxOptions {
        options := options + [""];
      }
    }

    /** `removeOption(index)`: splice out entry `index` only when more than two entries remain. */
    method RemoveOption(index: nat)
      requires Valid()
      modifies this
      ensures Valid()
      ensures options == PollEditor.RemoveOption(old(options), index)
      ensures question == old(question) && hasEndDate == old(hasEndDate) && endTime == old(endTime)
    {
      if |options| > MinOptions {
        var newOptions := options;
        if index < |newOptions| {
          newOptions := newOptions[..index] + newOptions[index + 1..];
        }
        options := newOptions;
      }
    }

    /** `handleOptionChange(index, value)`, typed into one of the rendered option inputs. */
    method ChangeOption(index: nat, value: string)
      requires Valid() && index < |options|
      modifies this
      ensures Valid()
      ensures options == PollEditor.ChangeOption(old(options), index, value)
      ensures question == old(question) && hasEndDate == old(hasEndDate) && endTime == old(endTime)
    {
      var newOptions := options;
      newOptions := newOptions[index := value];
      options := newOptions;
    }

    /**
     * `handleSubmit`: build the poll from the non-blank options and the end
     * time split into hours and minutes, then reset the question, options,
     * end date and end time.
     */
    method Submit() returns (draft: PollDraft)
      requires Valid()
      modifies this
      ensures Valid()
      ensures draft.question == old(question) && draft.options == NonBlankOptions(old(options))
      ensures draft.endTime == (if old(hasEndDate) then Some(SplitTime(old(endTime))) else None)
      ensures draft.endTime.Some? ==>
                && draft.endTime.value.hours.Some? && draft.endTime.value.hours.value < 24
                && (draft.endTime.value.minutes == Some(0) || draft.endTime.value.minutes == Some(30))
      ensures question == "" && options == InitialOptions && hasEndDate && endTime == "12:00"
    {
      var pollEndTime := None;
      if hasEndDate {
        SlotSplitsIntoTime(endTime);
        pollEndTime := Some(SplitTime(endTime));
      }
      draft := PollDraft(question, NonBlankOptions(options), pollEndTime);
      question := "";
      options := InitialOptions;
      hasEndDate := true;
      endTime := "12:00";
      NoonIsSlot();
    }
  }
}
