# Todo web client: list updaters and the add-todo form

This project models the two pieces of the todo app's web client that make
decisions about state:

- the home page's in-memory todo list (`apps/web/app/page.tsx`), and the three
  updaters it passes to its children: put a newly created todo at the front,
  replace a todo by id with the server's updated copy, and drop every todo
  with a given id. React only ever replaces this list whole, so each updater
  is a function from the previous `seq<Todo>` to the next one (module `Page`);
- the add-todo form (`apps/web/app/AddTodoForm.tsx`), whose submit handler
  updates three pieces of component state one after another: `title`,
  `submitting` and `error`. It is a class `AddTodoForm.Form` with those three
  fields. The handler is split at its first `await` (the fetch) into `BeginSubmit` (validation;
  raises `submitting` and clears `error`) and `FinishSubmit` (acts on the
  server's outcome; always lowers `submitting`). `HandleSubmit` runs both.
  The network is a parameter: `server` maps the title that is posted to a
  `Response`. A `Response` is one of three things. `Created` carries the new
  todo. `Rejected` carries the `error` field of a non-ok body. `Threw` covers
  `fetch` or `res.json()` throwing, with the Error's message if there is one.

`Todo` (module `Shared`) holds the fields the client reads: `id`, `title`,
`completed`. `String.prototype.trim` is modelled in module `JsString` over
the ECMAScript WhiteSpace and LineTerminator characters, written out in
`JsString.IsWhitespace` (TAB, VT, FF, ZWNBSP, every space separator of
category Zs, LF, CR, LS and PS).

## Model

| member | source | states |
|---|---|---|
| `Page.Occurrences` | apps/web/app/page.tsx:42 | the number of todos carrying an id is at most the length, and is zero exactly when no position carries that id |
| `Page.TodoAdded` | apps/web/app/page.tsx:33-35 | adding grows the list by exactly one, the new todo is at index 0, and every old todo sits one position later |
| `Page.AddedKeepsOrder` | apps/web/app/page.tsx:34 | behind the new todo, the result is exactly the old list in its original order |
| `Page.ToggleTodo` | apps/web/app/page.tsx:37-39 | toggling keeps the length; every position whose id is the target (duplicates included) holds the server's todo; every other position is unchanged |
| `Page.ToggleAbsent` | apps/web/app/page.tsx:38 | toggling an id that occurs nowhere returns the list unchanged |
| `Page.ToggleIdempotent` | apps/web/app/page.tsx:37-39 | toggling twice with the same todo equals toggling once, whatever id that todo carries |
| `Page.ToggleKeepsOccurrences` | apps/web/app/page.tsx:38 | when the server's todo carries the target id, toggling keeps the number of todos with that id |
| `Page.DeleteTodo` | apps/web/app/page.tsx:41-43 | deleting never lengthens the list, and no remaining todo carries the deleted id |
| `Page.DeleteLength` | apps/web/app/page.tsx:42 | deleting shortens the list by exactly the number of todos carrying the id |
| `Page.DeleteMembers` | apps/web/app/page.tsx:42 | a todo is in the result iff it was in the list and its id differs |
| `Page.DeleteSingleton` | apps/web/app/page.tsx:42 | on a single todo, deleting keeps it iff its id differs |
| `Page.DeleteAppend` | apps/web/app/page.tsx:42 | deleting from a concatenation is deleting from each part, in order: survivors keep their relative order (with DeleteSingleton this fixes the result of every delete) |
| `Page.DeleteAbsent` | apps/web/app/page.tsx:42 | deleting an id that occurs nowhere returns the list unchanged |
| `Page.DeleteIdempotent` | apps/web/app/page.tsx:42 | deleting the same id twice equals deleting it once |
| `Page.ToggleThenDelete` | apps/web/app/page.tsx:37-43 | when the server's todo carries the target id, toggling then deleting that id equals deleting it straight away |
| `Page.AddThenDelete` | apps/web/app/page.tsx:33-43 | adding a todo and then deleting its id equals deleting that id from the old list |
| `JsString.LeadingSpace` | apps/web/app/AddTodoForm.tsx:20 | the count of leading characters `trim` removes: all of them are whitespace and the next character, if any, is not |
| `JsString.TrailingSpace` | apps/web/app/AddTodoForm.tsx:20 | the count of trailing characters `trim` removes: all of them are whitespace and the character before them, if any, is not |
| `JsString.Trim` | apps/web/app/AddTodoForm.tsx:20-21 | neither end of the trimmed title is whitespace, and it is empty exactly when the title is all whitespace (the form's blank test) |
| `JsString.TrimIsSlice` | apps/web/app/AddTodoForm.tsx:20 | the trimmed title is a contiguous slice of the title with only whitespace outside it |
| `JsString.TrimIdempotent` | apps/web/app/AddTodoForm.tsx:20 | trimming an already trimmed title changes nothing |
| `AddTodoForm.FailureMessage` | apps/web/app/AddTodoForm.tsx:41-50 | after a failure the error text is the server's non-empty `error` field, else the thrown Error's message, else `'Failed to add todo'`; it is never anything else, and it is never empty after a server rejection |
| `AddTodoForm.Form.constructor` | apps/web/app/AddTodoForm.tsx:13-15 | a fresh form has an empty title, is not submitting and shows no error |
| `AddTodoForm.Form.ChangeTitle` | apps/web/app/AddTodoForm.tsx:59-71 | typing replaces the title, except while submitting, when the input is disabled; nothing else changes |
| `AddTodoForm.Form.BeginSubmit` | apps/web/app/AddTodoForm.tsx:17-27 | a title that trims to empty sets the error to `'Title is required'`, sends no request and leaves title and submitting alone; otherwise the request carries the trimmed title, submitting is raised and the error cleared before it is sent |
| `AddTodoForm.Form.FinishSubmit` | apps/web/app/AddTodoForm.tsx:29-53 | on success the title is emptied, the error is untouched and `onTodoAdded` is called exactly once with the server's todo; on failure the title is kept, `onTodoAdded` is not called and the error is the failure message; submitting is false in every case |
| `AddTodoForm.Form.HandleSubmit` | apps/web/app/AddTodoForm.tsx:17-54 | a request is sent iff the title does not trim to empty, and it carries the trimmed title; a blank title changes only the error; after a request submitting is false; on success the title is empty, no stale error survives and `onTodoAdded` got the server's todo once; on failure the title is kept, nothing was added and the error is the failure message |

## Left out

- Loading the list (`fetchTodos`, `useEffect`, `loading`/`error` on the page) and all rendering: network I/O and presentation.
- `e.preventDefault()`: a browser side effect with no bearing on the form's state.
- Interleaving of concurrent asynchronous submissions, and React's batching of state updates: each handler is modelled as running to completion in order.
- `AddTodoForm.Form.HandleSubmit` has no precondition on `submitting`; the disabled submit button that prevents a second submission is a DOM guarantee and is not modelled.
- `AddTodoForm.FailureMessage`: a truthy non-string `error` field in a rejection body (turned into text by `new Error`) is not modelled; `bodyError` is the field as a string.
- `JsString.Trim`: works on Unicode scalar values, not UTF-16 code units, so lone surrogates are not representable; every character `trim` removes lies in the Basic Multilingual Plane, so this does not change which titles count as blank.
- `Page.ToggleThenDelete`, `Page.ToggleKeepsOccurrences`: assume the server's updated todo carries the id that was patched, as `PATCH /todos/:id` returns that row. The client does not check this.
- The `Todo` record's remaining fields (timestamps) and the shared type package, which is not part of this model; only `id`, `title` and `completed` are read by the client.
- The API service, its database access and migration, the deployment configuration, the toggle and delete requests in the list component (their only decision is to call the page's updaters after an ok response), and the filter component (not wired into the page).
