/** The user store: a single authentication-token cell, '' when signed out. */
module UserStore {

  datatype UserStore = UserStore(token: string)

  const Initial: UserStore := UserStore("")

  /** `setToken(data)`: the token becomes `data`. */
  function SetToken(s: UserStore, data: string): (s': UserStore)
    ensures GetToken(s') == data
  {
    s.(token := data)
  }

  /** `getToken()`: reads the token, which is '' exactly in the signed-out store. */
  function GetToken(s: UserStore): (t: string)
    ensures t == "" <==> s == Initial
  {
    s.token
  }

  /** `removeToken()`: back to signed out. */
  function RemoveToken(s: UserStore): (s': UserStore)
    ensures GetToken(s') == ""
    ensures s' == Initial
  {
    s.(token := "")
  }

  /** The last `setToken` wins; reading does not change the store; removing
      after setting returns to the initial store. */
  lemma TokenCell(s: UserStore, a: string, b: string)
    ensures SetToken(SetToken(s, a), b) == SetToken(s, b)
    ensures GetToken(SetToken(SetToken(s, a), b)) == b
    ensures RemoveToken(SetToken(s, a)) == Initial
    ensures SetToken(RemoveToken(s), a) == SetToken(s, a)
  {
  }
}
