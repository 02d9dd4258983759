/** HTTP verbs shared by the client's request builders and the server's route table. */
module Http {
  datatype Method = GET | POST | PUT | DELETE
}
