/**
 * The validation chain that signup (server/routes/auth.js) and admin user
 * creation (server/routes/admin.js) both run before touching the users table.
 */
module AccountRules {
  import opened Wrappers
  import opened Validators

  const NameMessage := "Name must be 20-60 characters long"
  const EmailMessage := "Invalid email format"
  const AddressMessage := "Address must be 400 characters or less"
  const PasswordMessage := "Password must be 8-16 characters with at least one uppercase and one special character"
  const EmailExistsMessage := "User with this email already exists"
  const UserCreatedMessage := "User created successfully"

  /**
   * The 400 message of the first failing check, in the order name, email,
   * address, password; `None` when all four pass.
   */
  function AccountFieldError(name: string, email: string, address: string, password: string)
    : (e: Option<string>)
    ensures e == None <==>
      ValidateName(name) && ValidateEmail(email) && ValidateAddress(address) && IsStrongPassword(password)
    ensures e == Some(NameMessage) <==> !ValidateName(name)
    ensures e == Some(EmailMessage) <==> ValidateName(name) && !ValidateEmail(email)
    ensures e == Some(AddressMessage) <==>
      ValidateName(name) && ValidateEmail(email) && !ValidateAddress(address)
    ensures e == Some(PasswordMessage) <==>
      ValidateName(name) && ValidateEmail(email) && ValidateAddress(address) && !IsStrongPassword(password)
  {
    if !ValidateName(name) then Some(NameMessage)
    else if !ValidateEmail(email) then Some(EmailMessage)
    else if !ValidateAddress(address) then Some(AddressMessage)
    else if !IsStrongPassword(password) then Some(PasswordMessage)
    else None
  }
}
