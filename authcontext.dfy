/** The request context the business backend's middleware fills in
    (`pkg/contextkeys/keys.go`): each key is either present or absent. */
module AuthContext {
  import opened Wrappers

  datatype Ctx = Ctx(userId: Option<string>, businessId: Option<int>, gmail: Option<string>, role: Option<string>)

  const Empty: Ctx := Ctx(None, None, None, None)
}
