/** The envelope of every answer: a success flag, a message and a payload, which
    for errors is a list of keyed notifications. Notification keys are fresh GUIDs
    in the running system; here the caller supplies them. */
module Responses {
  import opened Wrappers
  import opened Text

  datatype Notification = Notification(key: string, message: string)

  datatype ApiResponse<T> = ApiResponse(isSuccess: bool, message: string, data: T)

  const DefaultErrorMessage: string := "Ocorreu um erro ao processar a requisição."
  const ValidationMessage: string := "Erro na validação"

  /** `new ApiResponse<T>(data, message)`: a success carrying `data`. */
  function Success<T>(data: T, message: string): (r: ApiResponse<T>)
    ensures r.isSuccess && r.message == message && r.data == data
  {
    ApiResponse(true, message, data)
  }

  /** `new ApiResponse<T>(message, err)`: a failure with one notification whose
      message joins every error with "; ". A missing message gets the default. */
  function Error(message: Option<string>, err: seq<string>, key: string): (r: ApiResponse<seq<Notification>>)
    ensures !r.isSuccess
    ensures r.message == (if message.Some? then message.value else DefaultErrorMessage)
    ensures |r.data| == 1 && r.data[0].key == key
    ensures forall i :: 0 <= i < |err| ==> Contains(r.data[0].message, err[i])
  {
    forall i | 0 <= i < |err| ensures Contains(Join(err, "; "), err[i]) {
      JoinContainsEach(err, "; ", i);
    }
    ApiResponse(false, if message.Some? then message.value else DefaultErrorMessage,
      [Notification(key, Join(err, "; "))])
  }

  /** `new ApiResponse<T>(validationException)`: a failure with one notification per
      validation message, in order, each under its own key. */
  function Validation(errors: seq<string>, keys: nat -> string): (r: ApiResponse<seq<Notification>>)
    ensures !r.isSuccess && r.message == ValidationMessage
    ensures |r.data| == |errors|
    ensures forall i :: 0 <= i < |errors| ==> r.data[i] == Notification(keys(i), errors[i])
  {
    ApiResponse(false, ValidationMessage,
      seq(|errors|, i requires 0 <= i < |errors| => Notification(keys(i), errors[i])))
  }

  function MessagesOf(ns: seq<Notification>): (msgs: seq<string>)
    ensures |msgs| == |ns|
    ensures forall i :: 0 <= i < |ns| ==> msgs[i] == ns[i].message
  {
    seq(|ns|, i requires 0 <= i < |ns| => ns[i].message)
  }

  /** The validation messages come back out of the response unchanged and in order,
      whatever the keys. */
  lemma ValidationKeepsMessages(errors: seq<string>, keys: nat -> string)
    ensures MessagesOf(Validation(errors, keys).data) == errors
  {
  }

  /** A single error is reported as it is; none gives an empty notification. */
  lemma ErrorWithOneMessage(message: Option<string>, e: string, key: string)
    ensures Error(message, [e], key).data == [Notification(key, e)]
    ensures Error(message, [], key).data == [Notification(key, "")]
  {
  }

  /** One more error extends the notification by "; " and that error. */
  lemma ErrorMessageAppend(message: Option<string>, err: seq<string>, e: string, key: string)
    requires err != []
    ensures Error(message, err + [e], key).data[0].message ==
      Error(message, err, key).data[0].message + "; " + e
  {
    JoinAppend(err, e, "; ");
  }

  /** The joined notification is as long as every error plus a "; " between each two. */
  lemma ErrorMessageLength(message: Option<string>, err: seq<string>, key: string)
    ensures |Error(message, err, key).data[0].message| ==
      TotalLength(err) + (if err == [] then 0 else (|err| - 1) * 2)
  {
    JoinLength(err, "; ");
  }
}
