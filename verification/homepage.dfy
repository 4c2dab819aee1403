/**
 * The poll-creation form on the home page: the question, its type, the
 * option list, the end date and time, and the loading and error state of
 * the create request. The asynchronous `handleSubmit` is split at its
 * `await`: `BeginSubmit` builds the request body, `FinishSubmit` applies the
 * request's outcome, an input to the model.
 */
module HomePage {
  import opened Wrappers
  import opened TimeSlots
  import opened PollEditor

  const MultipleOptions: nat := 0
  const YesNo: nat := 1

  const CreateErrorMessage: string := "An error occurred while creating the poll. Please try again."

  /**
   * The body of the create request. The end date itself is not modelled:
   * `timeOut` holds the hours and minutes set on it, or None without a date.
   */
  datatype PollData = PollData(question: string, questionType: nat, timeOut: Option<TimeParts>, options: seq<string>)

  /** How the create request ended: a response with its `success` flag, or a thrown error. */
  datatype CreateOutcome = Responded(success: bool) | RequestFailed

  class CreatePollForm {
    var question: string
    var options: seq<string>
    /** Whether an end date is picked; the date's value is not modelled. */
    var hasEndDate: bool
    var endTime: string
    var questionType: nat
    var loading: bool
    var error: Option<string>

    /** The option list stays within two to five entries; the end time is a label the picker offers; the type is one the select offers. */
    ghost predicate Valid()
      reads this
    {
      InBounds(options) && IsSlot(endTime) && questionType in {MultipleOptions, YesNo}
    }

    constructor ()
      ensures Valid()
      ensures question == "" && options == InitialOptions && hasEndDate && endTime == "12:00"
      ensures questionType == MultipleOptions && !loading && error.None?
    {
      question := "";
      options := InitialOptions;
      hasEndDate := true;
      endTime := "12:00";
      questionType := MultipleOptions;
      loading := false;
      error := None;
      NoonIsSlot();
    }

    method SetQuestion(text: string)
      requires Valid()
      modifies this
      ensures Valid()
      ensures question == text
      ensures options == old(options) && endTime == old(endTime) && questionType == old(questionType)
      ensures hasEndDate == old(hasEndDate) && loading == old(loading) && error == old(error)
    {
      question := text;
    }

    /** The type select offers only "Multiple Options" (0) and "Yes/No" (1). */
    method SetQuestionType(t: nat)
      requires Valid() && t in {MultipleOptions, YesNo}
      modifies this
      ensures Valid()
      ensures questionType == t
      ensures question == old(question) && options == old(options) && endTime == old(endTime)
      ensures hasEndDate == old(hasEndDate) && loading == old(loading) && error == old(error)
    {
      questionType := t;
    }

    /** Picking a date in the calendar or a quick duration, or clearing the calendar's selection. */
    method PickEndDate(present: bool)
      requires Valid()
      modifies this
      ensures Valid()
      ensures hasEndDate == present
      ensures question == old(question) && options == old(options) && endTime == old(endTime)
      ensures questionType == old(questionType) && loading == old(loading) && error == old(error)
    {
      hasEndDate := present;
    }

    /** The time select offers only the generated half-hour labels. */
    method SetEndTime(t: string)
      requires Valid() && IsSlot(t)
      modifies this
      ensures Valid()
      ensures endTime == t
      ensures question == old(question) && options == old(options) && hasEndDate == old(hasEndDate)
      ensures questionType == old(questionType) && loading == old(loading) && error == old(error)
    {
      endTime := t;
    }

    /** `addOption`: append a blank entry only below five entries and for a multiple-option poll. */
    method AddOption()
      requires Valid()
      modifies this
      ensures Valid()
      ensures old(questionType) == MultipleOptions ==> options == AppendBlank(old(options))
      ensures old(questionType) != MultipleOptions ==> options == old(options)
      ensures question == old(question) && endTime == old(endTime) && hasEndDate == old(hasEndDate)
      ensures questionType == old(questionType) && loading == old(loading) && error == old(error)
    {
      if |options| < MaxOptions && questionType == MultipleOptions {
        options := options + [""];
      }
    }

    /** `removeOption(index)`: splice out entry `index` only when more than two entries remain. */
    method RemoveOption(index: nat)
      requires Valid()
      modifies this
      ensures Valid()
      ensures options == PollEditor.RemoveOption(old(options), index)
      ensures question == old(question) && endTime == old(endTime) && hasEndDate == old(hasEndDate)
      ensures questionType == old(questionType) && loading == old(loading) && error == old(error)
    {
      if |options| > MinOptions {
        var newOptions := options;
        if index < |newOptions| {
          newOptions := newOptions[..index] + newOptions[index + 1..];
        }
        options := newOptions;
      }
    }

    /** `handleOptionChange(index, value)`, typed into one of the rendered option inputs. */
    method ChangeOption(index: nat, value: string)
      requires Valid() && index < |options|
      modifies this
      ensures Valid()
      ensures options == PollEditor.ChangeOption(old(options), index, value)
      ensures question == old(question) && endTime == old(endTime) && hasEndDate == old(hasEndDate)
      ensures questionType == old(questionType) && loading == old(loading) && error == old(error)
    {
      var newOptions := options;
      newOptions := newOptions[index := value];
      options := newOptions;
    }

    /**
     * `handleSubmit` up to the request, which the submit button allows only
     * when no request is loading: loading starts, the error is cleared, and
     * the body carries the end time split into hours and minutes and, for a
     * multiple-option poll, the non-blank options.
     */
    method BeginSubmit() returns (data: PollData)
      requires Valid() && !loading
      modifies this
      ensures Valid()
      ensures loading && error.None?
      ensures data.question == question && data.questionType == questionType
      ensures questionType == YesNo ==> data.options == []
      ensures questionType != YesNo ==> data.options == NonBlankOptions(options)
      ensures data.timeOut == (if hasEndDate then Some(SplitTime(endTime)) else None)
      ensures data.timeOut.Some? ==>
                && data.timeOut.value.hours.Some? && data.timeOut.value.hours.value < 24
                && (data.timeOut.value.minutes == Some(0) || data.timeOut.value.minutes == Some(30))
      ensures question == old(question) && options == old(options) && endTime == old(endTime)
      ensures hasEndDate == old(hasEndDate) && questionType == old(questionType)
    {
      loading := true;
      error := None;
      var timeOut := None;
      if hasEndDate {
        SlotSplitsIntoTime(endTime);
        timeOut := Some(SplitTime(endTime));
      }
      var submitted := if questionType == YesNo then [] else NonBlankOptions(options);
      data := PollData(question, questionType, timeOut, submitted);
    }

    /**
     * The rest of `handleSubmit`: a successful response resets the question,
     * options, end date and end time; a failed request sets the error
     * message; a response without `success` changes nothing. Loading ends
     * in every case.
     */
    method FinishSubmit(outcome: CreateOutcome)
      requires Valid() && loading
      modifies this
      ensures Valid()
      ensures !loading
      ensures questionType == old(questionType)
      ensures outcome == Responded(true) ==>
                && question == "" && options == InitialOptions && hasEndDate && endTime == "12:00"
                && error == old(error)
      ensures outcome == RequestFailed ==>
                && error == Some(CreateErrorMessage)
                && question == old(question) && options == old(options)
                && hasEndDate == old(hasEndDate) && endTime == old(endTime)
      ensures outcome == Responded(false) ==>
                && error == old(error)
                && question == old(question) && options == old(options)
                && hasEndDate == old(hasEndDate) && endTime == old(endTime)
    {
      match outcome {
        case Responded(success) =>
          if success {
            question := "";
            options := InitialOptions;
            hasEndDate := true;
            endTime := "12:00";
            NoonIsSlot();
          }
        case RequestFailed =>
          error := Some(CreateErrorMessage);
      }
      loading := false;
    }
  }
}
