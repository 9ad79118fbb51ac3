/** The annotation record that the extraction script writes to every
    `{i}_attributes.json` file and that the dataset loader reads back. */
module Records {
  import opened Dicts

  datatype AttributeRecord = AttributeRecord(
    attributes: Dict<string, int>,
    finegrained: Dict<string, int>,
    identity: int,
    originalFilename: string)
}
