/** HTTP replies as the handlers send them: a status code and a JSON body,
    with the exact message texts of the controller. */
module Replies {
  import opened UserModel
  import opened ChildModel

  /** An opaque signed token binding an account identifier (the signing key
      and the 7-day lifetime are the signer's business). */
  datatype Token = Token(subject: AccountId)

  datatype Body =
    | Message(text: string)
    | Registered(text: string, email: Email)
    | Session(token: Token, user: Profile)
    | UserRecord(user: Profile)
    | ChildRecord(child: Child)
    | ChildList(children: Children)

  datatype Reply = Reply(status: int, body: Body)

  const ServerError := "Server error"
  const UserExists := "User already exists"
  const RegisterMailFailed := "Failed to send verification email."
  const Registration := "Registration successful. Check email for code."
  const UserNotFound := "User not found"
  const AlreadyVerified := "User already verified"
  const InvalidCode := "Invalid or expired code"
  const Verified := "Email verified successfully"
  const InvalidCredentials := "Invalid credentials"
  const NotVerified := "Account not verified. A new code has been sent to your email."
  const CodeResent := "Verification code resent successfully"
  const ResetMailFailed := "Failed to send reset email."
  const ResetSent := "Reset code sent to your email!"
  const PasswordUpdated := "Password updated successfully!"
  const InvalidUserId := "Invalid user ID"
  const ChildNotFound := "Child not found"
  const ChildDeleted := "Child profile deleted successfully"
}
