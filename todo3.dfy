/**
 * demos/restful/todo3/main.go without its HTTP, cookie and JWT plumbing:
 * the package-level todo list and logged-in user, the handlers that change
 * them (add, toggle, login, logout), the page data that `getTodos` renders,
 * and the pure helpers `getRole` and the credential check.
 */
module Todo3 {
  import opened GoInt
  import opened GoStrconv

  datatype Todo = Todo(text: string, done: bool)

  /** The HTTP status a login request is answered with. */
  datatype LoginStatus =
    | SeeOther             // 303: logged in, redirected to "/"
    | InternalServerError  // 500: the token could not be created
    | Unauthorized         // 401: invalid credentials

  /** What `getTodos` hands to the page template. */
  datatype Page = Page(todos: seq<Todo>, loggedIn: bool, username: string, role: string)

  /** `getRole`: the token audience for a user name. */
  function GetRole(username: string): (role: string)
    ensures role == "senior" || role == "employee"
    ensures role == "senior" <==> username == "senior"
  {
    if username == "senior" then "senior" else "employee"
  }

  /**
   * The credential check of `login`: two fixed accounts, "employee" and
   * "senior", share the password "password".
   */
  function ValidCredentials(username: string, password: string): (ok: bool)
    ensures ok ==> password == "password"
    ensures ok ==> GetRole(username) == username
    ensures password == "password" ==> (ok <==> username in {"employee", "senior"})
  {
    (username == "employee" && password == "password") || (username == "senior" && password == "password")
  }

  /**
   * The list after `toggleIndex(i)`: an index in range flips that entry's
   * Done flag; any other index leaves the list as it is.
   */
  function Toggled(todos: seq<Todo>, i: int): (r: seq<Todo>)
    ensures |r| == |todos|
    ensures forall j :: 0 <= j < |r| ==>
      r[j].text == todos[j].text && (r[j].done <==> (todos[j].done != (j == i)))
    ensures !(0 <= i < |todos|) ==> r == todos
  {
    if 0 <= i < |todos| then todos[i := todos[i].(done := !todos[i].done)] else todos
  }

  /**
   * `toggleIndex` ignores Atoi's error, so an index that does not parse
   * ("", "x", "1st") toggles the first todo, if there is one, unless its
   * leading digits already overflow 64 bits.
   */
  lemma MalformedIndexTogglesFirst(todos: seq<Todo>, index: string)
    requires !ParsesAsInt(index) && !RunOverflows(index)
    ensures Toggled(todos, Atoi(index)) == Toggled(todos, 0)
    ensures |todos| >= 1 ==> Toggled(todos, Atoi(index))[0].done == !todos[0].done
  {
  }

  /**
   * A malformed index whose leading digits overflow reads as a bound of the
   * int64 range, which is never a position in the list: nothing is toggled.
   */
  lemma OverflowingIndexTogglesNothing(todos: seq<Todo>, index: string)
    requires !ParsesAsInt(index) && RunOverflows(index)
    requires |todos| <= MaxInt64
    ensures Toggled(todos, Atoi(index)) == todos
  {
  }

  /** The index written by `%d` selects that entry. */
  lemma WrittenIndexSelects(todos: seq<Todo>, i: Int64)
    requires 0 <= i < |todos|
    ensures Toggled(todos, Atoi(Itoa(i))) == todos[i := todos[i].(done := !todos[i].done)]
  {
    AtoiItoa(i);
  }

  /** Toggling the same index twice restores the list. */
  lemma ToggleTwice(todos: seq<Todo>, i: int)
    ensures Toggled(Toggled(todos, i), i) == todos
  {
  }

  /** The state `main.go` keeps in its package-level variables. */
  class TodoApp {
    var todos: seq<Todo>
    var loggedInUser: string

    /** Nobody but the two accounts, or nobody at all, is ever logged in. */
    ghost predicate Valid()
      reads this
    {
      loggedInUser == "" || loggedInUser == "employee" || loggedInUser == "senior"
    }

    /** The zero values of the two variables: no todos, nobody logged in. */
    constructor ()
      ensures Valid()
      ensures todos == [] && loggedInUser == ""
    {
      todos := [];
      loggedInUser := "";
    }

    /** `getTodos`: the data the page is rendered from. */
    function GetTodos(): (page: Page)
      reads this
      ensures page.loggedIn <==> loggedInUser != ""
      ensures page.todos == todos && page.username == loggedInUser
      ensures page.role == GetRole(loggedInUser)
    {
      Page(todos, loggedInUser != "", loggedInUser, GetRole(loggedInUser))
    }

    /** `addTodo`: append a new, not yet done entry. */
    method AddTodo(text: string)
      requires Valid()
      modifies this
      ensures Valid()
      ensures todos == old(todos) + [Todo(text, false)]
      ensures loggedInUser == old(loggedInUser)
    {
      var todo := Todo(text, false);
      todos := todos + [todo];
    }

    /** `toggleIndex`: parse the index, flip that entry if it exists. */
    method ToggleIndex(index: string)
      requires Valid()
      modifies this
      ensures Valid()
      ensures todos == Toggled(old(todos), Atoi(index))
      ensures loggedInUser == old(loggedInUser)
    {
      var i := Atoi(index);
      if i >= 0 && i < |todos| {
        todos := todos[i := todos[i].(done := !todos[i].done)];
      }
    }

    /** `logout`: nobody is logged in afterwards. */
    method Logout()
      requires Valid()
      modifies this
      ensures Valid()
      ensures loggedInUser == "" && todos == old(todos)
    {
      loggedInUser := "";
    }

    /**
     * `login`: on valid credentials and a created token the user is logged
     * in; otherwise nothing changes. `tokenCreated` stands for whether
     * `createToken` returned without error.
     */
    method Login(username: string, password: string, tokenCreated: bool) returns (status: LoginStatus)
      requires Valid()
      modifies this
      ensures Valid()
      ensures todos == old(todos)
      ensures status == Unauthorized <==> !ValidCredentials(username, password)
      ensures status == InternalServerError <==> ValidCredentials(username, password) && !tokenCreated
      ensures status == SeeOther <==> ValidCredentials(username, password) && tokenCreated
      ensures loggedInUser == if status == SeeOther then username else old(loggedInUser)
    {
      if ValidCredentials(username, password) {
        if !tokenCreated {
          return InternalServerError;
        }
        loggedInUser := username;
        status := SeeOther;
      } else {
        status := Unauthorized;
      }
    }
  }
}
