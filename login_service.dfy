/**
 * service/login-service.go: the static credential store. The user map is
 * built once by the constructor and only read afterwards, so the service is
 * a value and Login a function of it.
 */
module LoginServices {

  datatype LoginService = LoginService(users: map<string, string>) {

    /** Login: look the user up; a known user needs the exact stored password. */
    predicate Login(username: string, password: string)
      ensures Login(username, password) ==> username in users && users[username] == password
      ensures username !in users ==> !Login(username, password)
    {
      if username in users then users[username] == password else false
    }
  }

  /** NewLoginService: the two built-in accounts. */
  function NewLoginService(): (s: LoginService)
    ensures s.users.Keys == {"admin", "user"}
    ensures s.Login("admin", "password") && s.Login("user", "userpass")
  {
    LoginService(map["admin" := "password", "user" := "userpass"])
  }

  /** Login succeeds exactly for the (username, password) pairs the map holds. */
  lemma LoginIsMembership(s: LoginService, username: string, password: string)
    ensures s.Login(username, password) <==> (username, password) in s.users.Items
  {
    if (username, password) in s.users.Items {
      assert username in s.users && s.users[username] == password;
    }
    if username in s.users && s.users[username] == password {
      assert (username, password) in s.users.Items;
    }
  }

  /** With the built-in map, exactly admin/password and user/userpass succeed. */
  lemma BuiltInAccounts(username: string, password: string)
    ensures NewLoginService().Login(username, password)
        <==> (username, password) == ("admin", "password") || (username, password) == ("user", "userpass")
  {
    var users := NewLoginService().users;
    LoginIsMembership(NewLoginService(), username, password);
    assert users.Items == {("admin", "password"), ("user", "userpass")} by {
      forall item | item in users.Items ensures item in {("admin", "password"), ("user", "userpass")} {
        assert item.0 in users && users[item.0] == item.1;
      }
      assert users["admin"] == "password" && users["user"] == "userpass";
    }
  }
}
