/**
 The agency's customers: a plain record of last name, first name and phone
 number, with no behaviour of its own.
 */
module Clients {

  datatype Client = Client(lastName: string, firstName: string, phone: string)

  /** A new client holds exactly the three values it was given. */
  function NewClient(lastName: string, firstName: string, phone: string): (c: Client)
    ensures c.lastName == lastName && c.firstName == firstName && c.phone == phone
  {
    Client(lastName, firstName, phone)
  }
}
