/** A person record with a first and a last name, built by `Person::new`,
    joined by `full_name` and duplicated by `make_copy`. */
module Structs {

  datatype Person = Person(firstName: string, lastName: string)

  /** `Person::new`: the first argument is the first name, the second the
      last name. */
  function NewPerson(theirName: string, theirSurname: string): (p: Person)
    ensures p.firstName == theirName && p.lastName == theirSurname
  {
    Person(theirName, theirSurname)
  }

  /** `full_name`: the first name, one space, the last name. */
  function FullName(p: Person): (r: string)
    ensures |r| == |p.firstName| + |p.lastName| + 1
    ensures r[..|p.firstName|] == p.firstName
    ensures r[|p.firstName|] == ' '
    ensures r[|p.firstName| + 1..] == p.lastName
  {
    p.firstName + " " + p.lastName
  }

  /** `make_copy`: a new record with the same names. The original is read
      through a shared borrow and a `Person` here is a value, so it cannot
      change. */
  function MakeCopy(p: Person): (q: Person)
    ensures q == p
  {
    Person(p.firstName, p.lastName)
  }

  /** When first names hold no space, the full name determines the person:
      the first space of `full_name` is the separator. */
  lemma FullNameInjective(p: Person, q: Person)
    requires ' ' !in p.firstName && ' ' !in q.firstName
    requires FullName(p) == FullName(q)
    ensures p == q
  {
  }

  /** The script's `main`: `Person::new("Jack", "Jonhson")` has the full name
      "Jack Jonhson", and its copy has the same names. */
  lemma PersonExample()
    ensures FullName(NewPerson("Jack", "Jonhson")) == "Jack Jonhson"
    ensures MakeCopy(NewPerson("Jack", "Jonhson")) == Person("Jack", "Jonhson")
  {
  }
}
