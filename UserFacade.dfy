/**
  The users resource (`UserServiceImpl`): listing, reading, creating, deleting
  and updating users.
 */
module UserFacade {
  import opened JavaLang
  import opened Domain
  import opened Http

  const USERS_PATH: string := "/api/v1/users"
  const USER_PATH: string := USERS_PATH + "/{userName}"

  function GetAllUsersRequest(): Request
  {
    Request(GET, USERS_PATH, Null, UserListType, [])
  }

  function GetUserRequest(userName: JString): Request
  {
    Request(GET, USER_PATH, Null, UserType, [userName])
  }

  function CreateUsersRequest(newUsers: seq<User>): Request
  {
    Request(POST, USERS_PATH, Ref(UserList(Envelope(Ref(newUsers)))), UserListType, [])
  }

  function DeleteUserRequest(userName: JString): Request
  {
    Request(DELETE, USER_PATH, Null, UserType, [userName])
  }

  function UpdateUserRequest(user: User): Request
  {
    Request(PUT, USER_PATH, Ref(UserValue(user)), UserType, [user.name])
  }

  /** The name in the path of an update is always the name in its body. */
  lemma UpdateAddressesItsBody(user: User)
    ensures var req := UpdateUserRequest(user);
      req.body.Ref? && req.body.value.UserValue? && req.uriVariables == [req.body.value.user.name]
  {
  }

  /** A read, an update and a delete of the same name address the same resource. */
  lemma UserRequestsShareResource(user: User)
    ensures USER_PATH == "/api/v1/users/{userName}"
    ensures UpdateUserRequest(user).url == GetUserRequest(user.name).url == DeleteUserRequest(user.name).url
    ensures UpdateUserRequest(user).uriVariables == GetUserRequest(user.name).uriVariables
                                                 == DeleteUserRequest(user.name).uriVariables
  {
  }

  class UserServiceImpl {
    const http: HttpService

    constructor (http: HttpService)
      ensures this.http == http
    {
      this.http := http;
    }

    method GetAllUsers() returns (users: seq<User>)
      modifies http
      ensures http.log == old(http.log) + [GetAllUsersRequest()]
      ensures users == ItemsOrEmpty(UserListOf(old(http.ReplyTo(GetAllUsersRequest()))))
    {
      var userList := http.Get(USERS_PATH, UserListType, []);
      if userList.Null? || userList.value.users.items.Null? {
        return [];
      }
      return userList.value.users.items.value;
    }

    method Get(userName: JString) returns (user: Nullable<User>)
      modifies http
      ensures http.log == old(http.log) + [GetUserRequest(userName)]
      ensures user == UserOf(old(http.ReplyTo(GetUserRequest(userName))))
    {
      var reply := http.Get(USER_PATH, UserType, [userName]);
      user := UserOf(reply);
    }

    /** Creates the given users, posted in argument order in one envelope. */
    method Create(newUsers: seq<User>) returns (users: seq<User>)
      modifies http
      ensures http.log == old(http.log) + [CreateUsersRequest(newUsers)]
      ensures users == ItemsOrEmpty(UserListOf(old(http.ReplyTo(CreateUsersRequest(newUsers)))))
    {
      var userList := http.Post(USERS_PATH, Ref(UserList(Envelope(Ref(newUsers)))), UserListType, []);
      if userList.Null? || userList.value.users.items.Null? {
        return [];
      }
      return userList.value.users.items.value;
    }

    method Delete(userName: JString) returns (user: Nullable<User>)
      modifies http
      ensures http.log == old(http.log) + [DeleteUserRequest(userName)]
      ensures user == UserOf(old(http.ReplyTo(DeleteUserRequest(userName))))
    {
      var reply := http.Delete(USER_PATH, Null, UserType, [userName]);
      user := UserOf(reply);
    }

    /** Updates a user; the user is the body and its own name the path variable. */
    method Update(user: User) returns (updated: Nullable<User>)
      modifies http
      ensures http.log == old(http.log) + [UpdateUserRequest(user)]
      ensures updated == UserOf(old(http.ReplyTo(UpdateUserRequest(user))))
    {
      var reply := http.Put(USER_PATH, Ref(UserValue(user)), UserType, [user.name]);
      updated := UserOf(reply);
    }
  }
}
