/** The add-todo form: a text field, a submitting flag and an error line,
    updated step by step by its submit handler. */
module AddTodoForm {
  import opened Shared
  import opened JsString

  const TitleRequired: string := "Title is required"
  const FailedToAdd: string := "Failed to add todo"

  /** What the `POST /todos` round trip produced, as the handler sees it. */
  datatype Response =
      /** `res.ok`, and the body parsed as the created todo. */
    | Created(todo: Todo)
      /** Not `res.ok`; the body parsed and `bodyError` is its `error` field
          (None when the field is absent or a falsy non-string). */
    | Rejected(bodyError: Option<string>)
      /** `fetch` or `res.json()` threw; `message` is the message of the
          thrown Error, None when the thrown value is not an Error. */
    | Threw(message: Option<string>)

  /** The error line shown after a failed request: the server's `error`
      field when it is non-empty, otherwise the thrown Error's message,
      otherwise the default text. A rejection by the server always leaves
      some text to show. */
  function FailureMessage(response: Response): (m: string)
    requires !response.Created?
    ensures response.Rejected? ==> m != ""
    ensures m == FailedToAdd
            || (response.Rejected? && response.bodyError == Some(m) && m != "")
            || (response.Threw? && response.message == Some(m))
    ensures response.Rejected? && response.bodyError.Some? && response.bodyError.value != "" ==>
              m == response.bodyError.value
    ensures response.Threw? && response.message.Some? ==> m == response.message.value
  {
    match response
    case Rejected(bodyError) =>
      if bodyError.Some? && bodyError.value != "" then bodyError.value else FailedToAdd
    case Threw(message) => message.GetOr(FailedToAdd)
  }

  /** The form's component state. */
  class Form {
    var title: string
    var submitting: bool
    var error: Option<string>

    constructor ()
      ensures title == "" && !submitting && error == None
    {
      title, submitting, error := "", false, None;
    }

    /** The input's `onChange`. The input is disabled while a submission is
        in flight, so no edit reaches the state then. */
    method ChangeTitle(value: string)
      modifies this
      ensures title == (if old(submitting) then old(title) else value)
      ensures submitting == old(submitting) && error == old(error)
    {
      if !submitting {
        title := value;
      }
    }

    /** `handleSubmit` up to its first `await`: validate the trimmed title,
        then raise `submitting` and clear the error. `request` is the title
        put in the request body, None when no request is sent. */
    method BeginSubmit() returns (request: Option<string>)
      modifies this
      ensures title == old(title)
      ensures Trim(title) == [] ==>
                request == None && error == Some(TitleRequired) && submitting == old(submitting)
      ensures Trim(title) != [] ==>
                request == Some(Trim(title)) && submitting && error == None
    {
      var trimmedTitle := Trim(title);
      if trimmedTitle == [] {
        error := Some(TitleRequired);
        return None;
      }
      submitting := true;
      error := None;
      request := Some(trimmedTitle);
    }

    /** `handleSubmit` after the request: on success clear the title and hand
        the server's todo to `onTodoAdded` (the returned `notified` lists the
        todos passed to it, in call order); on failure keep the title and
        show the server's message or the default one; in every case lower
        `submitting`. */
    method FinishSubmit(response: Response) returns (notified: seq<Todo>)
      modifies this
      ensures !submitting
      ensures response.Created? ==>
                title == "" && error == old(error) && notified == [response.todo]
      ensures !response.Created? ==> title == old(title) && notified == []
      ensures !response.Created? ==> error == Some(FailureMessage(response))
    {
      notified := [];
      match response {
        case Created(newTodo) =>
          title := "";
          notified := notified + [newTodo];
        case _ =>
          error := Some(FailureMessage(response));
      }
      submitting := false;
    }

    /** The whole `handleSubmit`. `server` gives the outcome of posting a
        title; it is consulted only when a request is sent, and only with the
        trimmed title. */
    method HandleSubmit(server: string -> Response) returns (request: Option<string>, notified: seq<Todo>)
      modifies this
      ensures request == None <==> Trim(old(title)) == []
      ensures request == None ==>
                title == old(title) && submitting == old(submitting)
                && error == Some(TitleRequired) && notified == []
      ensures request.Some? ==> request.value == Trim(old(title)) && !submitting
      ensures request.Some? && server(request.value).Created? ==>
                title == "" && error == None && notified == [server(request.value).todo]
      ensures request.Some? && !server(request.value).Created? ==>
                title == old(title) && notified == []
                && error == Some(FailureMessage(server(request.value)))
    {
      request := BeginSubmit();
      notified := [];
      if request.Some? {
        notified := FinishSubmit(server(request.value));
      }
    }
  }
}
